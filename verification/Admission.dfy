/** Admission in linux/ownership/cbpf_jit.c as a function: one increasing pass over the program
    that joins each instruction's kinds into its successors, and its final verdict. */
module Admission {
  import opened Common
  import opened Bpf

  // A bitset over UNINIT, ZERO, SCALAR and HANDLE.
  datatype Kind = Kind(uninit: bool, zero: bool, scalar: bool, handle: bool)

  const EMPTY := Kind(false, false, false, false)
  const UNINIT := Kind(true, false, false, false)
  const ZERO := Kind(false, true, false, false)
  const SCALAR := Kind(false, false, true, false)
  const HANDLE := Kind(false, false, false, true)
  const NULLABLE := Kind(false, true, false, true)

  predicate IsScalarKind(k: Kind)
  {
    k != EMPTY && !k.uninit && !k.handle
  }

  predicate IsDefined(k: Kind)
  {
    k != EMPTY && !k.uninit
  }

  function JoinKind(a: Kind, b: Kind): Kind
  {
    Kind(a.uninit || b.uninit, a.zero || b.zero, a.scalar || b.scalar, a.handle || b.handle)
  }

  // struct cbpf_flow.
  datatype Flow = Flow(reg: seq<Kind>, spill: Kind, reached: bool)

  type Point = f: Flow | |f.reg| == 10 witness Flow(seq(10, _ => EMPTY), EMPTY, false)

  // The zeroed entry, and the entry of the first instruction.
  function Unreached(): Point
  {
    Flow(seq(10, _ => EMPTY), EMPTY, false)
  }

  function Entry(): Point
  {
    Flow(seq(10, _ => UNINIT), UNINIT, true)
  }

  // join into a flow entry.
  function Join(destination: Point, source: Point): (f: Point)
    ensures f.reached == (destination.reached || source.reached)
    ensures destination.reached ==> forall r :: 0 <= r < 10 ==> f.reg[r] == JoinKind(destination.reg[r], source.reg[r])
  {
    if !destination.reached then source
    else
      Flow(seq(10, r requires 0 <= r < 10 => JoinKind(destination.reg[r], source.reg[r])),
           JoinKind(destination.spill, source.spill), true)
  }

  // Registers 1 to 5 are clobbered by a call.
  function Clobber(reg: seq<Kind>, result: Kind): (r: seq<Kind>)
    requires |reg| == 10
    ensures |r| == 10 && r[0] == result
    ensures forall i :: 1 <= i <= 5 ==> r[i] == UNINIT
    ensures forall i :: 6 <= i < 10 ==> r[i] == reg[i]
  {
    [result, UNINIT, UNINIT, UNINIT, UNINIT, UNINIT] + reg[6..]
  }

  // What an instruction passes on: to the next one, and to a branch target.
  datatype Passed = Passed(falls: Option<Point>, taken: Option<Point>)

  // The registers an instruction names exist.
  predicate Sized(x: Insn)
  {
    && (x.code.MovReg? || x.code.MovImm? || x.code.Ldx? || x.code.Jeq? ==> x.dst <= 9)
    && (x.code.MovReg? || x.code.Stx? ==> x.src <= 9)
  }

  // The transfer of one instruction, without its checks.
  function Transfer(p: Program, x: Insn, s: Point): (out: Passed)
    requires Sized(x)
    ensures out.falls.Some? ==> out.falls.value.reached == s.reached
    ensures out.taken.Some? ==> out.taken.value.reached == s.reached && x.code.Jeq?
  {
    match x.code
    case MovReg => Passed(Some(s.(reg := s.reg[x.dst := s.reg[x.src]])), None)
    case MovImm => Passed(Some(s.(reg := s.reg[x.dst := if x.imm != 0 then SCALAR else ZERO])), None)
    case Stx => Passed(Some(s.(spill := s.reg[x.src])), None)
    case Ldx => Passed(Some(s.(reg := s.reg[x.dst := s.spill])), None)
    case Jeq =>
      var rest := s.reg[x.dst].(zero := false);
      Passed(if rest != EMPTY then Some(s.(reg := s.reg[x.dst := rest])) else None,
             if s.reg[x.dst].zero then Some(s.(reg := s.reg[x.dst := ZERO])) else None)
    case Call =>
      var op := Operation(p, x);
      Passed(Some(s.(reg := Clobber(s.reg, if op == ACQUIRE then NULLABLE else if op == READ then SCALAR else ZERO))),
             None)
    case Exit => Passed(None, None)
    case Other => Passed(None, None)
  }

  datatype Error = Invalid | Unsupported

  // The checks at pc, given the flow entry and the acquisitions seen before it.
  function Check(p: Program, pc: nat, s: Point, acquisitions: nat): Option<Error>
    requires pc < |p.insns|
  {
    var x := p.insns[pc];
    var ok :=
      match x.code
      case MovReg => x.dst <= 9 && x.src <= 9 && x.off == 0 && x.imm == 0 && IsDefined(s.reg[x.src])
      case MovImm => x.dst <= 9 && x.src == 0 && x.off == 0
      case Stx => x.dst == 10 && x.src <= 9 && x.off == -8 && x.imm == 0 && IsDefined(s.reg[x.src])
      case Ldx => x.dst <= 9 && x.src == 10 && x.off == -8 && x.imm == 0 && IsDefined(s.spill)
      case Jeq =>
        && x.dst <= 9 && x.src == 0 && x.imm == 0 && x.off > 0 && pc + 1 + x.off < |p.insns|
        && IsDefined(s.reg[x.dst]) && !s.reg[x.dst].scalar
      case Call =>
        var op := Operation(p, x);
        if op == ACQUIRE then IsScalarKind(s.reg[1]) && acquisitions < 2
        else op != 0 && s.reg[1] == HANDLE
      case Exit => x.dst == 0 && x.src == 0 && x.off == 0 && x.imm == 0 && IsScalarKind(s.reg[0])
      case Other => false;
    if !s.reached then Some(Invalid)
    else if x.code.Other? then Some(Unsupported)
    else if !ok then Some(Invalid)
    else None
  }

  // The flow table after the instruction at pc has passed on its kinds.
  function Propagate(p: Program, flow: seq<Point>, pc: nat): (f: seq<Point>)
    requires pc < |p.insns| && |flow| == |p.insns| + 1 && Check(p, pc, flow[pc], 0).None?
    ensures |f| == |flow| && forall i :: 0 <= i <= pc ==> f[i] == flow[i]
  {
    var x := p.insns[pc];
    var out := Transfer(p, x, flow[pc]);
    var f := if out.taken.Some? then flow[pc + 1 + x.off := Join(flow[pc + 1 + x.off], out.taken.value)] else flow;
    if out.falls.Some? then f[pc + 1 := Join(f[pc + 1], out.falls.value)] else f
  }

  function IsAcquire(p: Program, x: Insn): nat
  {
    if Operation(p, x) == ACQUIRE then 1 else 0
  }

  datatype Verdict = Admitted(flow: seq<Point>) | Rejected(error: Error)

  // Checks that do not depend on the count of acquisitions hold for every count.
  lemma CheckCount(p: Program, pc: nat, s: Point, acquisitions: nat)
    requires pc < |p.insns|
    ensures Check(p, pc, s, acquisitions).None? ==> Check(p, pc, s, 0).None?
  {
  }

  // The pass from pc on, then the final verdict.
  function AdmitFrom(p: Program, flow: seq<Point>, pc: nat, acquisitions: nat, hasExit: bool): (v: Verdict)
    requires |flow| == |p.insns| + 1 && pc <= |p.insns|
    ensures v.Admitted? ==> |v.flow| == |flow| && forall i :: 0 <= i <= pc && i < |flow| ==> v.flow[i] == flow[i]
    decreases |p.insns| - pc
  {
    if pc == |p.insns| then
      if hasExit && acquisitions > 0 && !flow[pc].reached then Admitted(flow) else Rejected(Invalid)
    else
      var error := Check(p, pc, flow[pc], acquisitions);
      if error.Some? then Rejected(error.value)
      else
        CheckCount(p, pc, flow[pc], acquisitions);
        AdmitFrom(p, Propagate(p, flow, pc), pc + 1, acquisitions + IsAcquire(p, p.insns[pc]),
                  hasExit || p.insns[pc].code.Exit?)
  }

  function EntryFlow(n: nat): (flow: seq<Point>)
    ensures |flow| == n + 1 && flow[0] == Entry() && forall i :: 0 < i <= n ==> flow[i] == Unreached()
  {
    [Entry()] + seq(n, _ => Unreached())
  }

  // admit.
  function Admit(p: Program): (v: Verdict)
    ensures v.Admitted? ==> |v.flow| == |p.insns| + 1 && v.flow[0] == Entry()
  {
    AdmitFrom(p, EntryFlow(|p.insns|), 0, 0, false)
  }
}
