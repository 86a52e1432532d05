/** The reference machine of src/cbpf.c as a function: the validator's rules, one step of the
    interpreter, its run to a return or a trap, and the terminal cleanup. */
module HostMachine {
  import opened Common

  // The sizes of src/cbpf.h, as parameters.
  datatype Limits = Limits(cells: nat, regs: nat, spills: nat, maxInsns: nat)

  const HOST := Limits(2, 4, 2, 64)

  datatype Opcode = Acquire | Copy | Spill | Reload | Read | Release | BrNull | Return | Unknown

  datatype Insn = Insn(op: Opcode, dst: nat, src: nat, imm: int)

  datatype Status = Returned | Trapped | Invalid
  datatype Trap = NoTrap | NullTrap | StaleTrap | ExhaustedTrap
  datatype EventKind = StepEvent | TrapEvent | CleanupEvent
  datatype Event = Event(kind: EventKind, op: Opcode, pc: nat, token: nat, refs: int)

  // struct cbpf_result; events holds the first event_count entries of the buffer.
  datatype Result = Result(
    status: Status,
    trap: Trap,
    pc: nat,
    returned: int,
    acquired: nat,
    readCount: nat,
    explicitReleases: nat,
    cleanupReleases: nat,
    lastRead: int,
    refs: int,
    explicitBy: seq<nat>,
    cleanupBy: seq<nat>,
    events: seq<Event>)

  // The interpreter's locals together with the result it fills in.
  datatype Config = Config(regs: seq<nat>, spills: seq<nat>, live: seq<bool>, r: Result)

  // ---- Validation ----

  // The rules for the instruction at pc of an n-instruction program.
  predicate Wellformed(L: Limits, n: nat, pc: nat, x: Insn)
  {
    match x.op
    case Acquire => x.dst < L.regs && (x.imm == 0 || x.imm == 1)
    case Copy => x.dst < L.regs && x.src < L.regs
    case Spill => x.dst < L.spills && x.src < L.regs
    case Reload => x.dst < L.regs && x.src < L.spills
    case Read => x.dst < L.regs
    case Release => x.dst < L.regs
    case BrNull => x.dst < L.regs && pc < x.imm < n
    case Return => true
    case Unknown => false
  }

  predicate Valid(L: Limits, p: seq<Insn>)
  {
    && 0 < |p| <= L.maxInsns
    && (forall i :: 0 <= i < |p| ==> Wellformed(L, |p|, i, p[i]))
    && p[|p| - 1].op.Return?
  }

  // What a rejection reports: 0 for a bad size, else the least malformed index, else the last.
  ghost predicate Blames(L: Limits, p: seq<Insn>, bad: nat)
  {
    if !(0 < |p| <= L.maxInsns) then bad == 0
    else if exists i :: 0 <= i < |p| && !Wellformed(L, |p|, i, p[i]) then
      && bad < |p| && !Wellformed(L, |p|, bad, p[bad])
      && forall i :: 0 <= i < bad ==> Wellformed(L, |p|, i, p[i])
    else bad == |p| - 1 && !p[bad].op.Return?
  }

  // The index reported, when there is one to report.
  function Blamed(L: Limits, p: seq<Insn>): (bad: Option<nat>)
    ensures bad.None? <==> Valid(L, p)
    ensures bad.Some? ==> Blames(L, p, bad.value)
  {
    if !(0 < |p| <= L.maxInsns) then Some(0)
    else
      var i := FirstMalformed(L, p, 0);
      if i < |p| then Some(i) else if !p[|p| - 1].op.Return? then Some(|p| - 1) else None
  }

  function FirstMalformed(L: Limits, p: seq<Insn>, from: nat): (i: nat)
    requires from <= |p|
    ensures from <= i <= |p|
    ensures i < |p| ==> !Wellformed(L, |p|, i, p[i])
    ensures forall j :: from <= j < i ==> Wellformed(L, |p|, j, p[j])
    decreases |p| - from
  {
    if from < |p| && Wellformed(L, |p|, from, p[from]) then FirstMalformed(L, p, from + 1) else from
  }

  // ---- What a program must satisfy, read off its operands ----

  // The registers and the slots that an instruction reads or writes.
  function RegistersOf(x: Insn): set<nat>
  {
    match x.op
    case Copy => {x.dst, x.src}
    case Spill => {x.src}
    case Return => {}
    case Unknown => {}
    case _ => {x.dst}
  }

  function SlotsOf(x: Insn): set<nat>
  {
    if x.op.Spill? then {x.dst} else if x.op.Reload? then {x.src} else {}
  }

  // Where control can go from pc.
  function Successors(pc: nat, x: Insn): set<int>
  {
    if x.op.BrNull? then {pc + 1, x.imm} else if x.op.Return? then {} else {pc + 1}
  }

  // The instruction at pc of an n-instruction program has a meaning: its operands exist, an
  // acquisition says whether the provider returns NULL, and a branch goes forward and stays inside.
  ghost predicate Meaningful(L: Limits, n: nat, pc: nat, x: Insn)
  {
    && x.op != Unknown
    && (forall r :: r in RegistersOf(x) ==> r < L.regs)
    && (forall s :: s in SlotsOf(x) ==> s < L.spills)
    && (x.op.Acquire? ==> x.imm in {0, 1})
    && (x.op.BrNull? ==> forall t :: t in Successors(pc, x) ==> pc < t < n)
  }

  lemma WellformedExactly(L: Limits, n: nat, pc: nat, x: Insn)
    ensures Wellformed(L, n, pc, x) <==> Meaningful(L, n, pc, x)
  {
    if x.op.BrNull? { assert pc + 1 in Successors(pc, x) && x.imm in Successors(pc, x); }
    if x.op.Copy? { assert x.dst in RegistersOf(x) && x.src in RegistersOf(x); }
    if x.op.Spill? { assert x.dst in SlotsOf(x) && x.src in RegistersOf(x); }
    if x.op.Reload? { assert x.src in SlotsOf(x) && x.dst in RegistersOf(x); }
    if !x.op.Return? && !x.op.Unknown? && !x.op.Spill? { assert x.dst in RegistersOf(x); }
  }

  // Which programs are accepted, and which index is blamed for the others.
  ghost predicate Accepts(L: Limits, p: seq<Insn>)
  {
    && 1 <= |p| <= L.maxInsns && p[|p| - 1].op == Return
    && forall pc :: 0 <= pc < |p| ==> Meaningful(L, |p|, pc, p[pc])
  }

  // 0 for a bad size, else the least index without a meaning, else the last.
  ghost predicate Reports(L: Limits, p: seq<Insn>, bad: nat)
  {
    if |p| == 0 || |p| > L.maxInsns then bad == 0
    else
      && bad < |p|
      && (forall pc :: 0 <= pc < bad ==> Meaningful(L, |p|, pc, p[pc]))
      && (Meaningful(L, |p|, bad, p[bad]) ==> bad == |p| - 1 && p[bad].op != Return)
  }

  lemma ValidExactly(L: Limits, p: seq<Insn>)
    ensures Valid(L, p) <==> Accepts(L, p)
    ensures !Accepts(L, p) ==> forall bad :: Blames(L, p, bad) <==> Reports(L, p, bad)
  {
    hide Wellformed, Meaningful;
    forall pc | 0 <= pc < |p| ensures Wellformed(L, |p|, pc, p[pc]) <==> Meaningful(L, |p|, pc, p[pc]) {
      WellformedExactly(L, |p|, pc, p[pc]);
    }
  }

  lemma BlamesUnique(L: Limits, p: seq<Insn>, a: nat, b: nat)
    requires Blames(L, p, a) && Blames(L, p, b)
    ensures a == b
  {
  }

  // ---- Execution ----

  // Every index the interpreter computes is in bounds: tokens name acquired cells.
  predicate Shape(L: Limits, c: Config)
  {
    && |c.regs| == L.regs && |c.spills| == L.spills
    && |c.live| == |c.r.explicitBy| == |c.r.cleanupBy| == L.cells
    && c.r.acquired <= L.cells
    && (forall i :: 0 <= i < |c.regs| ==> c.regs[i] <= c.r.acquired)
    && (forall i :: 0 <= i < |c.spills| ==> c.spills[i] <= c.r.acquired)
  }

  function EmptyResult(L: Limits): Result
  {
    Result(Returned, NoTrap, 0, 0, 0, 0, 0, 0, 0, 1,
           seq(L.cells, _ => 0), seq(L.cells, _ => 0), [])
  }

  function Initial(L: Limits): (c: Config)
    ensures Shape(L, c)
  {
    Config(seq(L.regs, _ => 0), seq(L.spills, _ => 0), seq(L.cells, _ => false), EmptyResult(L))
  }

  function Log(r: Result, kind: EventKind, op: Opcode, token: nat): Result
  {
    r.(events := r.events + [Event(kind, op, r.pc, token, r.refs)])
  }

  datatype Outcome = Next(c: Config, pc: nat) | Halt(c: Config)

  function Done(c: Config, x: Insn, token: nat, next: nat): Outcome
  {
    Next(c.(r := Log(c.r, StepEvent, x.op, token)), next)
  }

  function TrapOut(c: Config, x: Insn, token: nat, trap: Trap): Outcome
  {
    Halt(c.(r := Log(c.r.(trap := trap, status := Trapped), TrapEvent, x.op, token)))
  }

  function TakeCell(c: Config, dst: nat): Config
    requires c.r.acquired < |c.live| && dst < |c.regs|
  {
    var token := c.r.acquired + 1;
    c.(live := c.live[token - 1 := true],
       regs := c.regs[dst := token],
       r := c.r.(acquired := token, refs := c.r.refs + 1))
  }

  function DropCell(c: Config, token: nat): Config
    requires 0 < token <= |c.live| && token <= |c.r.explicitBy|
  {
    c.(live := c.live[token - 1 := false],
       r := c.r.(refs := c.r.refs - 1,
                 explicitReleases := c.r.explicitReleases + 1,
                 explicitBy := c.r.explicitBy[token - 1 := c.r.explicitBy[token - 1] + 1]))
  }

  function AcquireStep(L: Limits, c: Config, x: Insn): (o: Outcome)
    requires Shape(L, c) && x.dst < L.regs
    ensures Shape(L, o.c) && (o.Next? ==> o.pc == c.r.pc + 1)
  {
    if x.imm == 0 then Done(c.(regs := c.regs[x.dst := 0]), x, 0, c.r.pc + 1)
    else if c.r.acquired == L.cells then TrapOut(c, x, 0, ExhaustedTrap)
    else Done(TakeCell(c, x.dst), x, c.r.acquired + 1, c.r.pc + 1)
  }

  function MoveStep(L: Limits, c: Config, x: Insn): (o: Outcome)
    requires Shape(L, c) && (x.op.Copy? || x.op.Spill? || x.op.Reload?)
    requires x.dst < (if x.op.Spill? then L.spills else L.regs)
    requires x.src < (if x.op.Reload? then L.spills else L.regs)
    ensures Shape(L, o.c) && (o.Next? ==> o.pc == c.r.pc + 1)
  {
    var token := if x.op.Reload? then c.spills[x.src] else c.regs[x.src];
    var c' := if x.op.Spill? then c.(spills := c.spills[x.dst := token]) else c.(regs := c.regs[x.dst := token]);
    Done(c', x, token, c.r.pc + 1)
  }

  function UseStep(L: Limits, c: Config, x: Insn): (o: Outcome)
    requires Shape(L, c) && x.dst < L.regs
    ensures Shape(L, o.c) && (o.Next? ==> o.pc == c.r.pc + 1)
  {
    var token := c.regs[x.dst];
    if token == 0 then TrapOut(c, x, token, NullTrap)
    else if !c.live[token - 1] then TrapOut(c, x, token, StaleTrap)
    else if x.op.Read? then Done(c.(r := c.r.(readCount := c.r.readCount + 1, lastRead := 42)), x, token, c.r.pc + 1)
    else Done(DropCell(c, token), x, token, c.r.pc + 1)
  }

  // One iteration of the interpreter's loop.
  function Step(L: Limits, p: seq<Insn>, before: Config, pc: nat): (o: Outcome)
    requires Shape(L, before) && pc < |p| && Wellformed(L, |p|, pc, p[pc])
    ensures Shape(L, o.c)
    ensures o.Next? ==> pc < o.pc && !p[pc].op.Return? && (o.pc == pc + 1 || o.pc < |p|)
  {
    var x := p[pc];
    var c := before.(r := before.r.(pc := pc));
    match x.op
    case Acquire => AcquireStep(L, c, x)
    case Copy => MoveStep(L, c, x)
    case Spill => MoveStep(L, c, x)
    case Reload => MoveStep(L, c, x)
    case Read => UseStep(L, c, x)
    case Release => UseStep(L, c, x)
    case BrNull => Done(c, x, c.regs[x.dst], if c.regs[x.dst] == 0 then x.imm else pc + 1)
    case Return => Halt(c.(r := Log(c.r.(returned := x.imm, status := Returned), StepEvent, x.op, 0)))
    case Unknown => Halt(c.(r := c.r.(status := Invalid)))
  }

  // The loop from pc on: it leaves the program only by a return or a trap.
  function Exec(L: Limits, p: seq<Insn>, c: Config, pc: nat): (final: Config)
    requires Valid(L, p) && Shape(L, c) && pc < |p|
    ensures Shape(L, final)
    decreases |p| - pc
  {
    match Step(L, p, c, pc)
    case Next(c', pc') => Exec(L, p, c', pc')
    case Halt(c') => c'
  }

  // Drop the cell of token i + 1 if it is still live.
  function CleanupCell(c: Config, i: nat): Config
    requires i < |c.live| && i < |c.r.cleanupBy|
  {
    if !c.live[i] then c
    else
      var r := c.r.(refs := c.r.refs - 1,
                    cleanupReleases := c.r.cleanupReleases + 1,
                    cleanupBy := c.r.cleanupBy[i := c.r.cleanupBy[i] + 1]);
      c.(live := c.live[i := false], r := Log(r, CleanupEvent, Release, i + 1))
  }

  // The cleanup loop from cell i on.
  function Cleanup(c: Config, i: nat): (final: Config)
    requires c.r.acquired <= |c.live| && c.r.acquired <= |c.r.cleanupBy|
    decreases c.r.acquired - i
  {
    if i < c.r.acquired then Cleanup(CleanupCell(c, i), i + 1) else c
  }

  // cbpf_run.
  function Run(L: Limits, p: seq<Insn>): Result
  {
    if !Valid(L, p) then EmptyResult(L).(status := Invalid, pc := Blamed(L, p).value)
    else Cleanup(Exec(L, p, Initial(L), 0), 0).r
  }

  // A program that is not accepted is not run: the result blames an index and is otherwise empty.
  lemma RunRejects(L: Limits, p: seq<Insn>)
    ensures !Accepts(L, p) ==> exists bad ::
      && Reports(L, p, bad)
      && Run(L, p)
         == Result(Invalid, NoTrap, bad, 0, 0, 0, 0, 0, 0, 1, seq(L.cells, _ => 0), seq(L.cells, _ => 0), [])
  {
    hide Exec, Cleanup;
    ValidExactly(L, p);
    if !Accepts(L, p) {
      assert Reports(L, p, Blamed(L, p).value);
    }
  }
}
