/** The BPF subset of linux/ownership/cbpf_jit.c (RFC 9669): instructions, values, and a
    small-step semantics against an arbitrary gate. A step the compiler's admission is meant to
    exclude goes to Stuck. */
module Bpf {
  import opened Capabilities
  import opened Common

  // Instruction encodings of the grammar; anything else is Other.
  datatype Code = MovReg | MovImm | Stx | Ldx | Jeq | Call | Exit | Other

  datatype Insn = Insn(code: Code, dst: nat, src: nat, off: int, imm: int)

  const ACQUIRE := 1
  const READ := 2
  const RELEASE := 3

  // A program, and which of the three kfuncs a call instruction resolves to (else 0).
  datatype Program = Program(insns: seq<Insn>, kfunc: Insn -> nat)

  // call_operation.
  function Operation(p: Program, x: Insn): (op: nat)
    ensures op <= 3
  {
    if x.code != Call || x.src != 2 || x.dst != 0 || p.kfunc(x) > 3 then 0 else p.kfunc(x)
  }

  // cbpf_jit_match: some instruction is a gate call.
  predicate Matches(p: Program)
  {
    exists pc :: 0 <= pc < |p.insns| && Operation(p, p.insns[pc]) != 0
  }

  // A gate call in the instruction's own fields: a call, source 2 for a kfunc, destination 0, and
  // the kfunc it resolves to.
  predicate Calls(p: Program, x: Insn, kfunc: nat)
  {
    x == Insn(Call, 0, 2, x.off, x.imm) && p.kfunc(x) == kfunc && kfunc in {ACQUIRE, READ, RELEASE}
  }

  lemma OperationExactly(p: Program, x: Insn)
    ensures forall k :: Calls(p, x, k) <==> Operation(p, x) == k && k != 0
    ensures Operation(p, x) == 0 <==> !Calls(p, x, ACQUIRE) && !Calls(p, x, READ) && !Calls(p, x, RELEASE)
  {
  }

  predicate IsScalar(c: Capability)
  {
    c == Scalar(c.address) && c.address < U64
  }

  // A public handle: authority, and not the null address.
  predicate IsHandle(c: Capability)
  {
    c.tag && 0 < c.address < U64
  }

  // What a BPF register or the spill slot holds.
  datatype Val = Undef | Def(c: Capability)

  // One gate call, as the gate sees it.
  datatype GateCall = GateCall(operation: nat, pc: nat, argument: Capability)

  // The gate refuses, which ends the program, or returns a value.
  datatype Answer = Refused | Value(c: Capability)

  // A gate may answer from everything it has been asked so far, the last call included.
  type Gate = seq<GateCall> -> Answer

  // What the kfuncs' contracts let a call return.
  predicate Lawful(call: GateCall, a: Answer)
  {
    match a
    case Refused => true
    case Value(c) =>
      if call.operation == ACQUIRE then c == Scalar(0) || IsHandle(c)
      else if call.operation == READ then IsScalar(c)
      else c == Scalar(0)
  }

  ghost predicate Obeys(gate: Gate)
  {
    forall calls {:trigger gate(calls)} :: |calls| > 0 ==> Lawful(calls[|calls| - 1], gate(calls))
  }

  // ---- Semantics ----

  datatype Config = Config(pc: nat, regs: seq<Val>, spill: Val, calls: seq<GateCall>)

  datatype State =
    | Running(k: Config)
    | Exited(value: nat, calls: seq<GateCall>)
    | Aborted(calls: seq<GateCall>)
    | Stuck(calls: seq<GateCall>)

  predicate Shape(k: Config)
  {
    |k.regs| == 10
  }

  function Start(): Config
  {
    Config(0, seq(10, _ => Undef), Undef, [])
  }

  // A call returns in r0 and clobbers r1 to r5.
  function AfterCall(regs: seq<Val>, value: Val): (r: seq<Val>)
    requires |regs| == 10
    ensures |r| == 10
    ensures forall i :: 0 <= i < 10 ==> r[i] == if i == 0 then value else if i <= 5 then Undef else regs[i]
  {
    [value, Undef, Undef, Undef, Undef, Undef] + regs[6..]
  }

  // The argument the contract of the called kfunc demands.
  predicate Accepts(operation: nat, v: Val)
  {
    v.Def? && (if operation == ACQUIRE then IsScalar(v.c) else IsHandle(v.c))
  }

  function CallStep(p: Program, gate: Gate, k: Config, x: Insn): State
    requires Shape(k)
  {
    var operation := Operation(p, x);
    if operation == 0 || !Accepts(operation, k.regs[1]) then Stuck(k.calls)
    else
      var calls := k.calls + [GateCall(operation, k.pc, k.regs[1].c)];
      match gate(calls)
      case Refused => Aborted(calls)
      case Value(c) => Running(Config(k.pc + 1, AfterCall(k.regs, Def(c)), k.spill, calls))
  }

  // One instruction. Control leaves the program only through Exit.
  function Step(p: Program, gate: Gate, k: Config): (s: State)
    requires Shape(k)
    ensures s.Running? ==> Shape(s.k) && k.pc < s.k.pc && k.pc < |p.insns|
  {
    if k.pc >= |p.insns| then Stuck(k.calls)
    else
      var x := p.insns[k.pc];
      match x.code
      case MovReg =>
        if x.dst > 9 || x.src > 9 || k.regs[x.src].Undef? then Stuck(k.calls)
        else Running(k.(pc := k.pc + 1, regs := k.regs[x.dst := k.regs[x.src]]))
      case MovImm =>
        if x.dst > 9 then Stuck(k.calls)
        else Running(k.(pc := k.pc + 1, regs := k.regs[x.dst := Def(Scalar(Widen(x.imm)))]))
      case Stx =>
        if x.dst != 10 || x.src > 9 || x.off != -8 || k.regs[x.src].Undef? then Stuck(k.calls)
        else Running(k.(pc := k.pc + 1, spill := k.regs[x.src]))
      case Ldx =>
        if x.dst > 9 || x.src != 10 || x.off != -8 || k.spill.Undef? then Stuck(k.calls)
        else Running(k.(pc := k.pc + 1, regs := k.regs[x.dst := k.spill]))
      case Jeq =>
        // Compares with a zero immediate; the operand is a null or a handle.
        if x.dst > 9 || x.imm != 0 || x.off <= 0 || k.regs[x.dst].Undef? then Stuck(k.calls)
        else if k.regs[x.dst].c == Scalar(0) then Running(k.(pc := k.pc + 1 + x.off))
        else if IsHandle(k.regs[x.dst].c) then Running(k.(pc := k.pc + 1))
        else Stuck(k.calls)
      case Call => CallStep(p, gate, k, x)
      case Exit =>
        if k.regs[0].Undef? || !IsScalar(k.regs[0].c) then Stuck(k.calls)
        else Exited(k.regs[0].c.address, k.calls)
      case Other => Stuck(k.calls)
  }

  // The run from a configuration to its end; forward-only control makes it finite.
  function Run(p: Program, gate: Gate, k: Config): (s: State)
    requires Shape(k)
    ensures !s.Running?
    decreases |p.insns| - k.pc
  {
    var s := Step(p, gate, k);
    if s.Running? then Run(p, gate, s.k) else s
  }
}
