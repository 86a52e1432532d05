/** A small-step Morello machine for the words linux/ownership/cbpf_jit.c emits: executive entry,
    restricted execution with the sealed gate, the gateway of linux/ownership/cbpf_runtime.c, and
    the executive epilogue. */
module NativeMachine {
  import opened Capabilities
  import opened Common
  import opened Bpf
  import opened Emission

  // A capability register: data, or one of the sealed entries of a protected run.
  datatype Reg = Data(c: Capability) | Code(index: nat) | GateEntry | Caller

  // Sixteen bytes of the executive frame: a capability, or a pair of integers.
  datatype Slot = One(r: Reg) | Two(x: nat, y: nat)

  // c0 to c30, the frame from the stack pointer up, and the gate calls made.
  datatype Machine = Machine(pc: nat, c: seq<Reg>, frame: seq<Slot>, executive: bool, calls: seq<GateCall>)

  datatype Outcome = Going(m: Machine) | Returned(value: nat, m: Machine) | Fault

  // What surrounds one run: the gate, where the image and the executive stack lie, the state
  // that cbpf_enter checks and whether its capabilities can be built, and the values the hardware
  // leaves in unspecified places.
  datatype Env = Env(
    gate: Gate,
    base: nat,
    top: int,
    enter: nat,
    prog: nat,
    active: bool,
    entered: bool,
    failed: bool,
    pccBase: nat,
    pccLength: nat,
    constructs: bool,
    junk: Capability,
    clobbered: nat -> Reg)

  predicate Shape(m: Machine)
  {
    |m.c| == 31
  }

  function Set(m: Machine, rd: nat, r: Reg): (n: Machine)
    requires Shape(m) && rd < 31
    ensures Shape(n)
  {
    m.(pc := m.pc + 1, c := m.c[rd := r])
  }

  // An integer source: register 31 reads as zero.
  function Low(m: Machine, r: nat): Option<nat>
    requires Shape(m)
  {
    if r == ZR then Some(0) else if r < 31 && m.c[r].Data? then Some(m.c[r].c.address) else None
  }

  // Replaces bits 16k to 16k + 15.
  function Insert(v: nat, imm: nat, k: nat): nat
  {
    ChunkFits(v, k);
    v - Chunk(v, k) * Power16(k) + imm * Power16(k)
  }

  lemma ChunkFits(v: nat, k: nat)
    ensures Chunk(v, k) * Power16(k) <= v
  {
    var P := Power16(k);
    var q := v / P;
    assert Chunk(v, k) <= q;
    assert q * P <= v;
    MulLeq(Chunk(v, k), q, P);
  }

  lemma MulLeq(a: nat, b: nat, c: nat)
    requires a <= b
    ensures a * c <= b * c
  {
  }

  // Storing zero over the low or the high half of the slot at the stack pointer.
  function ZeroHalf(s: Slot, slot: nat): Slot
  {
    match s
    case One(Data(c)) =>
      if slot == 0 then One(Data(c.(tag := false, address := 0))) else One(Data(Scalar(c.address)))
    case One(_) => One(Data(Scalar(0)))
    case Two(x, y) => if slot == 0 then Two(0, y) else Two(x, 0)
  }

  // ldr c16, [csp].
  function LoadCap(s: Slot): Option<Reg>
  {
    match s
    case One(r) => Some(r)
    case Two(x, y) => if y == 0 then Some(Data(Scalar(x))) else None
  }

  predicate Tagged(r: Reg)
  {
    match r
    case Data(c) => c.tag
    case _ => true
  }

  // A 64-bit save and restore of a register.
  function Truncated(r: Reg): Reg
  {
    match r
    case Data(c) => Data(Scalar(c.address))
    case _ => r
  }

  // The gateway's return: integer state is cleared except x15, c17 and c19 to c22.
  function Gateway(c: seq<Reg>, exit: Reg, ret: Reg, value: Capability): (n: seq<Reg>)
    requires |c| == 31
    ensures |n| == 31
  {
    seq(31, i requires 0 <= i < 31 =>
      if i == 0 then Data(value)
      else if i == 14 then ret
      else if i == 30 then exit
      else if i == 15 then Truncated(c[15])
      else if i == 17 || (19 <= i <= 22) then c[i]
      else Data(Scalar(0)))
  }

  // blrs to the sealed gate. A reply whose address is all ones skips the restricted
  // continuation: control goes to the saved exit with a zero result.
  function CallGate(env: Env, m: Machine): Outcome
    requires Shape(m)
  {
    if !m.c[0].Data? || !m.c[4].Data? || !m.c[5].Data? || !m.c[13].Code? then Fault
    else
      var calls := m.calls + [GateCall(m.c[4].c.address, m.c[5].c.address, m.c[0].c)];
      var reply := match env.gate(calls)
        case Refused => Scalar(U64 - 1)
        case Value(v) => v;
      var exit := m.c[13];
      if reply.address == U64 - 1 then
        Going(Machine(exit.index, Gateway(m.c, exit, exit, Scalar(0)), m.frame, true, calls))
      else
        Going(Machine(m.pc + 1, Gateway(m.c, exit, Code(m.pc + 1), reply), m.frame, false, calls))
  }

  // After a gate call every register is zero but the result, the continuation, the sidecar's
  // address, the gate, the four that survive calls, and the exit. A failure has a zero result,
  // continues at the exit and is executive.
  lemma GateClears(env: Env, m: Machine)
    requires Shape(m) && CallGate(env, m).Going?
    ensures var n := CallGate(env, m).m;
      && (forall i :: 0 <= i < 31 && i != 0 && i != 14 && i != 15 && i != 17 && !(19 <= i <= 22) && i != 30 ==>
            n.c[i] == Data(Scalar(0)))
      && n.c[17] == m.c[17] && n.c[19..23] == m.c[19..23] && n.c[15] == Truncated(m.c[15]) && n.c[30] == m.c[13]
      && n.frame == m.frame && n.c[0].Data? && n.c[14].Code? && n.pc == n.c[14].index
      && (n.executive ==> n.c[14] == m.c[13] && n.c[0] == Data(Scalar(0)))
      && (!n.executive ==> n.pc == m.pc + 1 && n.c[0].c.address != U64 - 1)
  {
    assert m.c[19..23] == [m.c[19], m.c[20], m.c[21], m.c[22]];
    var n := CallGate(env, m).m;
    assert n.c[19..23] == [n.c[19], n.c[20], n.c[21], n.c[22]];
  }

  // The stack pointer: one slot is sixteen bytes.
  function StackPointer(env: Env, depth: nat): nat
  {
    Widen(env.top - 16 * depth)
  }

  // What cbpf_enter asks of the invocation, the private stack and the outer return address
  // before it builds any capability.
  predicate Enterable(env: Env, stack: nat, outer: nat, cookie: nat)
  {
    && env.active && !env.entered && !env.failed && env.prog == cookie
    && stack % 16 == 0 && stack <= U64 - 1 - 16
    && outer % 4 == 0 && env.pccBase <= outer <= env.pccBase + env.pccLength
    && env.pccBase + env.pccLength - outer >= 4
  }

  // The argument checks, the return address of the call being the next word.
  predicate EntryArguments(env: Env, m: Machine)
    requires Shape(m) && forall i :: 0 <= i <= 5 ==> m.c[i].Data?
  {
    && Enterable(env, m.c[0].c.address, m.c[4].c.address, m.c[5].c.address)
    && m.c[1].c.address % 0x1_0000_0000 == 16
    && m.c[2].c.address > env.base + 4 * (m.pc + 1)
    && m.c[3].c.address % 0x1_0000_0000 != 0
  }

  // blr to cbpf_enter, with the stack pointer and an image address as its first and third
  // arguments: accepted, it starts the restricted code at the next word, with the exit and gate
  // sentries in place and the caller saved above the sidecar; otherwise it returns an error.
  function Enter(env: Env, m: Machine): Outcome
    requires Shape(m)
  {
    if !m.executive || m.c[10] != Data(Scalar(env.enter)) || |m.frame| < 2 then Fault
    else if exists i :: 0 <= i <= 5 && !m.c[i].Data? then Fault
    else if m.c[0].c.address != StackPointer(env, |m.frame|) then Fault
    else if m.c[2].c.address < env.base || (m.c[2].c.address - env.base) % 4 != 0 then Fault
    else if EntryArguments(env, m) && env.constructs then
      var c := seq(31, i requires 0 <= i < 31 =>
        if i == 0 then Data(Scalar(0))
        else if i == 15 then Data(Scalar(m.c[0].c.address))
        else if i == 17 then GateEntry
        else if i == 30 then Code((m.c[2].c.address - env.base) / 4)
        else env.clobbered(i));
      Going(Machine(m.pc + 1, c, [m.frame[0], One(Caller)] + m.frame[2..], false, m.calls))
    else
      // The C function preserves the callee-saved registers; its error code is not zero.
      var c := seq(31, i requires 0 <= i < 31 =>
        if i == 0 then Data(Scalar(Widen(if EntryArguments(env, m) then -34 else -22)))
        else if 19 <= i <= 29 then m.c[i]
        else env.clobbered(i));
      Going(Machine(m.pc + 1, c, m.frame, true, m.calls))
  }

  // One instruction that neither branches nor calls.
  function Exec(env: Env, w: Native, m: Machine): (o: Outcome)
    requires Shape(m)
    ensures o.Going? ==> Shape(o.m) && o.m.pc == m.pc + 1
  {
    match w
    case BtiJc => Going(m.(pc := m.pc + 1))
    case Nop => Going(m.(pc := m.pc + 1))
    case PaciAsp => Going(m.(pc := m.pc + 1))
    case AutiAsp => Going(m.(pc := m.pc + 1))
    case Mov(rd, rn) =>
      if rd < 31 && Low(m, rn).Some? then Going(Set(m, rd, Data(Scalar(Low(m, rn).value)))) else Fault
    case MovFromSp(rd) => if rd < 31 then Going(Set(m, rd, Data(Scalar(StackPointer(env, |m.frame|))))) else Fault
    case Push(ra, rb) =>
      if Low(m, ra).Some? && Low(m, rb).Some? then
        Going(m.(pc := m.pc + 1, frame := [Two(Low(m, ra).value, Low(m, rb).value)] + m.frame))
      else Fault
    case Pop(ra, rb) =>
      if ra < 31 && rb < 31 && |m.frame| > 0 && m.frame[0].Two? then
        Going(m.(pc := m.pc + 1,
                 c := m.c[ra := Data(Scalar(m.frame[0].x))][rb := Data(Scalar(m.frame[0].y))],
                 frame := m.frame[1..]))
      else Fault
    case SubSp => Going(m.(pc := m.pc + 1, frame := [One(Data(env.junk))] + m.frame))
    case AddSp => if |m.frame| > 0 then Going(m.(pc := m.pc + 1, frame := m.frame[1..])) else Fault
    case MovZ(rd, imm, shift) =>
      if rd < 31 then Going(Set(m, rd, Data(Scalar(imm * Power16(shift / 16))))) else Fault
    case MovK(rd, imm, shift) =>
      if rd < 31 && m.c[rd].Data? then
        Going(Set(m, rd, Data(Scalar(Insert(m.c[rd].c.address, imm, shift / 16)))))
      else Fault
    case Adr(rd, bytes) =>
      if rd < 31 && env.base + 4 * m.pc + bytes >= 0 then
        Going(Set(m, rd, Data(Scalar(env.base + 4 * m.pc + bytes))))
      else Fault
    case CapMov(rd, rn) => if rd < 31 && rn < 31 then Going(Set(m, rd, m.c[rn])) else Fault
    case CapStr(rt) =>
      if rt < 31 && |m.frame| > 0 then Going(m.(pc := m.pc + 1, frame := m.frame[0 := One(m.c[rt])])) else Fault
    case CapLdr(rt) =>
      if rt < 31 && |m.frame| > 0 && m.frame[0].One? then Going(Set(m, rt, m.frame[0].r)) else Fault
    case StrZr(slot) =>
      if |m.frame| > 0 then Going(m.(pc := m.pc + 1, frame := m.frame[0 := ZeroHalf(m.frame[0], slot)])) else Fault
    case LdrC16 =>
      if |m.frame| > 0 && LoadCap(m.frame[0]).Some? then Going(Set(m, 16, LoadCap(m.frame[0]).value)) else Fault
    case GcTag(rd, rn) =>
      if rd < 31 && rn < 31 then Going(Set(m, rd, Data(Scalar(if Tagged(m.c[rn]) then 1 else 0)))) else Fault
    case _ => Fault
  }

  predicate Straight(w: Native)
  {
    !(w.BreakFault? || w.Blr? || w.Ret? || w.Cbz? || w.B? || w.Blrs? || w.RetClr? || w.RetrC16?)
  }

  function Jump(m: Machine, words: int): Outcome
  {
    if m.pc + words >= 0 then Going(m.(pc := m.pc + words)) else Fault
  }

  // One step of the image.
  function Step(code: seq<Native>, env: Env, m: Machine): (o: Outcome)
    requires Shape(m)
    ensures o.Going? ==> Shape(o.m)
  {
    if m.pc >= |code| then Fault
    else
      match code[m.pc]
      case Cbz(rt, words) =>
        if rt >= 31 || !m.c[rt].Data? then Fault
        else if m.c[rt].c.address == 0 then Jump(m, words) else Jump(m, 1)
      case B(words) => Jump(m, words)
      case Blr(rn) => if rn == 10 then Enter(env, m) else Fault
      case Blrs(rn) => if rn == 17 && m.c[17].GateEntry? && !m.executive then CallGate(env, m) else Fault
      case RetClr => if m.c[30].Code? then Going(m.(pc := m.c[30].index, executive := true)) else Fault
      case RetrC16 =>
        if m.executive && m.c[16].Caller? && m.c[0].Data? then Returned(m.c[0].c.address, m) else Fault
      case Ret(rn) =>
        if m.executive && rn == LR && m.c[30].Data? && m.c[0].Data? then Returned(m.c[0].c.address, m) else Fault
      case BreakFault => Fault
      case _ => Exec(env, code[m.pc], m)
  }

  // Steps until the image returns, faults, or the fuel is spent.
  function Steps(code: seq<Native>, env: Env, m: Machine, n: nat): (o: Outcome)
    requires Shape(m)
    ensures o.Going? ==> Shape(o.m)
    decreases n
  {
    if n == 0 then Going(m)
    else
      var o := Step(code, env, m);
      if o.Going? then Steps(code, env, o.m, n - 1) else o
  }

  // ---- Composition ----

  lemma {:induction false} StepsCompose(code: seq<Native>, env: Env, m: Machine, a: nat, b: nat)
    requires Shape(m) && Steps(code, env, m, a).Going?
    ensures Steps(code, env, m, a + b) == Steps(code, env, Steps(code, env, m, a).m, b)
    decreases a
  {
    if a > 0 {
      StepsCompose(code, env, Step(code, env, m).m, a - 1, b);
    }
  }

  // A finished run does not depend on the fuel.
  lemma {:induction false} StepsFinal(code: seq<Native>, env: Env, m: Machine, a: nat, b: nat)
    requires Shape(m) && a <= b && !Steps(code, env, m, a).Going?
    ensures Steps(code, env, m, b) == Steps(code, env, m, a)
    decreases a
  {
    var o := Step(code, env, m);
    if o.Going? { StepsFinal(code, env, o.m, a - 1, b - 1); }
  }

  // A straight-line block as one function.
  function ExecAll(env: Env, w: seq<Native>, m: Machine): (o: Outcome)
    requires Shape(m)
    ensures o.Going? ==> Shape(o.m) && o.m.pc == m.pc + |w|
    decreases |w|
  {
    if w == [] then Going(m)
    else
      var o := Exec(env, w[0], m);
      if o.Going? then ExecAll(env, w[1..], o.m) else o
  }

  // The image holds the words w from index at on.
  predicate HoldsAt(code: seq<Native>, at: nat, w: seq<Native>)
  {
    at + |w| <= |code| && forall i :: 0 <= i < |w| ==> code[at + i] == w[i]
  }

  lemma {:induction false} BlockRuns(code: seq<Native>, env: Env, w: seq<Native>, m: Machine)
    requires Shape(m) && HoldsAt(code, m.pc, w) && ExecAll(env, w, m).Going?
    requires forall i :: 0 <= i < |w| ==> Straight(w[i])
    ensures Steps(code, env, m, |w|) == ExecAll(env, w, m)
    decreases |w|
  {
    hide Exec;
    if w != [] {
      assert code[m.pc + 0] == w[0];
      StraightSteps(code, env, m);
      var o := Exec(env, w[0], m);
      forall i | 0 <= i < |w[1..]| ensures code[o.m.pc + i] == w[1..][i] && Straight(w[1..][i]) {
        assert w[1..][i] == w[i + 1] && code[m.pc + (i + 1)] == w[i + 1];
      }
      BlockRuns(code, env, w[1..], o.m);
    }
  }

  lemma StraightSteps(code: seq<Native>, env: Env, m: Machine)
    requires Shape(m) && m.pc < |code| && Straight(code[m.pc])
    ensures Step(code, env, m) == Exec(env, code[m.pc], m)
  {
  }

  lemma {:induction false} ExecAllAppend(env: Env, a: seq<Native>, b: seq<Native>, m: Machine)
    requires Shape(m)
    ensures var o := ExecAll(env, a, m);
      ExecAll(env, a + b, m) == if o.Going? then ExecAll(env, b, o.m) else o
    decreases |a|
  {
    hide Exec;
    if a == [] {
      assert a + b == b;
    } else {
      assert (a + b)[1..] == a[1..] + b && (a + b)[0] == a[0];
      var o := Exec(env, a[0], m);
      if o.Going? { ExecAllAppend(env, a[1..], b, o.m); }
    }
  }
}
