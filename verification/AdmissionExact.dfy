/** What admission accepts, said without its checks, its transfers or its join: the encodings it
    lists, one or two acquisition sites, an exit, and an inductive table of kinds from which no
    step gets stuck and which every other inductive table must reach everywhere. */
module AdmissionExact {
  import opened Capabilities
  import opened Common
  import opened Bpf
  import opened Admission
  import opened AdmissionFixpoint
  import opened AdmissionSound

  // The fields of the admitted encodings.
  ghost predicate Encodes(p: Program, pc: nat)
    requires pc < |p.insns|
  {
    var x := p.insns[pc];
    match x.code
    case MovReg => x.dst <= 9 && x.src <= 9 && x.off == 0 && x.imm == 0
    case MovImm => x.dst <= 9 && x.src == 0 && x.off == 0
    case Stx => x.dst == 10 && x.src <= 9 && x.off == -8 && x.imm == 0
    case Ldx => x.dst <= 9 && x.src == 10 && x.off == -8 && x.imm == 0
    case Jeq => x.dst <= 9 && x.src == 0 && x.imm == 0 && pc + 1 < pc + 1 + x.off < |p.insns|
    case Call => exists kfunc :: Calls(p, x, kfunc)
    case Exit => x == Insn(Exit, 0, 0, 0, 0)
    case Other => false
  }

  // No configuration that the entry describes is stuck, whatever a lawful gate answers.
  ghost predicate Moves(p: Program, pc: nat, f: Point)
  {
    forall k, gate {:trigger Step(p, gate, k)} ::
      Obeys(gate) && Describes(f, k) && k.pc == pc ==> !Step(p, gate, k).Stuck?
  }

  // Some value is possible everywhere.
  predicate Inhabited(f: Point)
  {
    f.reached ==> f.spill != EMPTY && forall r :: 0 <= r < 10 ==> f.reg[r] != EMPTY
  }

  // ---- One instruction ----

  // A possible value, and an awkward one if there is any: undefined, else a nonzero scalar or
  // else a handle, in the order asked for.
  function Pick(k: Kind, scalarFirst: bool): Val
  {
    if k.uninit then Undef
    else if scalarFirst && k.scalar then Def(Scalar(1))
    else if scalarFirst && k.zero then Def(Scalar(0))
    else if k.handle then Def(Exactly(1, 0, 0))
    else if k.scalar then Def(Scalar(1))
    else Def(Scalar(0))
  }

  function Sample(f: Point, pc: nat, scalarFirst: bool): (k: Config)
    ensures Shape(k) && k.pc == pc && k.spill == Pick(f.spill, scalarFirst)
    ensures forall r :: 0 <= r < 10 ==> k.regs[r] == Pick(f.reg[r], scalarFirst)
  {
    Config(pc, seq(10, r requires 0 <= r < 10 => Pick(f.reg[r], scalarFirst)), Pick(f.spill, scalarFirst), [])
  }

  lemma SampleDescribed(f: Point, pc: nat, scalarFirst: bool)
    requires f.reached && Inhabited(f)
    ensures Describes(f, Sample(f, pc, scalarFirst))
  {
  }

  // A gate that answers every call of one operation with one value.
  function Always(operation: nat, c: Capability): Gate
  {
    (calls: seq<GateCall>) => if calls != [] && calls[|calls| - 1].operation == operation then Value(c) else Refused
  }

  lemma AlwaysObeys(operation: nat, c: Capability)
    requires Lawful(GateCall(operation, 0, NULL), Value(c))
    ensures Obeys(Always(operation, c))
  {
  }

  lemma NeverStuck(p: Program, pc: nat, f: Point, scalarFirst: bool)
    requires f.reached && Inhabited(f) && Moves(p, pc, f)
    ensures !Step(p, Always(RELEASE, Scalar(0)), Sample(f, pc, scalarFirst)).Stuck?
  {
    SampleDescribed(f, pc, scalarFirst);
    AlwaysObeys(RELEASE, Scalar(0));
    hide Step, Obeys, Describes;
  }

  // An instruction with an admitted encoding passes its checks exactly if it cannot get stuck,
  // apart from the limit on acquisition sites.
  lemma CheckExactly(p: Program, pc: nat, f: Point, acquisitions: nat)
    requires pc < |p.insns| && Inhabited(f)
    ensures Check(p, pc, f, acquisitions).None? <==>
      && f.reached && Encodes(p, pc) && Moves(p, pc, f)
      && (Calls(p, p.insns[pc], ACQUIRE) ==> acquisitions < 2)
    ensures Check(p, pc, f, acquisitions) == Some(Unsupported) <==> f.reached && p.insns[pc].code == Other
  {
    var x := p.insns[pc];
    OperationExactly(p, x);
    if Check(p, pc, f, acquisitions).None? {
      CheckCount(p, pc, f, acquisitions);
      forall k, gate {:trigger Step(p, gate, k)} | Obeys(gate) && Describes(f, k) && k.pc == pc
        ensures !Step(p, gate, k).Stuck?
      {
        StepWithin(p, gate, f, k);
      }
      EncodedWhenChecked(p, pc, f, acquisitions);
    } else if f.reached && Encodes(p, pc) && Moves(p, pc, f) {
      NeverStuck(p, pc, f, true);
      NeverStuck(p, pc, f, false);
      StuckUnlessChecked(p, pc, f, acquisitions);
    }
  }

  lemma EncodedWhenChecked(p: Program, pc: nat, f: Point, acquisitions: nat)
    requires pc < |p.insns| && Check(p, pc, f, acquisitions).None?
    ensures f.reached && Encodes(p, pc) && (Calls(p, p.insns[pc], ACQUIRE) ==> acquisitions < 2)
  {
    OperationExactly(p, p.insns[pc]);
    hide IsDefined, IsScalarKind;
  }

  lemma StuckUnlessChecked(p: Program, pc: nat, f: Point, acquisitions: nat)
    requires pc < |p.insns| && Inhabited(f) && f.reached && Encodes(p, pc)
    requires !Step(p, Always(RELEASE, Scalar(0)), Sample(f, pc, true)).Stuck?
    requires !Step(p, Always(RELEASE, Scalar(0)), Sample(f, pc, false)).Stuck?
    ensures Check(p, pc, f, acquisitions).None? || (Calls(p, p.insns[pc], ACQUIRE) && acquisitions >= 2)
  {
    OperationExactly(p, p.insns[pc]);
  }

  // ---- Tables ----

  // A table that describes the start and, with every configuration before stop, all its successors.
  ghost predicate Inductive(p: Program, stop: nat, t: seq<Point>)
  {
    && |t| == |p.insns| + 1 && stop <= |p.insns| && Describes(t[0], Start())
    && forall k: Config, gate: Gate {:trigger Step(p, gate, k)} ::
         Obeys(gate) && k.pc < stop && Describes(t[k.pc], k) && Step(p, gate, k).Running? ==>
           var n := Step(p, gate, k).k; n.pc <= |p.insns| && Describes(t[n.pc], n)
  }

  // Everything a covers is covered by b.
  ghost predicate Within(a: Kind, b: Kind)
  {
    forall v :: Covers(a, v) ==> Covers(b, v)
  }

  ghost predicate Under(a: Point, b: Point)
  {
    a.reached ==> b.reached && Within(a.spill, b.spill) && forall r :: 0 <= r < 10 ==> Within(a.reg[r], b.reg[r])
  }

  lemma UnderDescribes(a: Point, b: Point, k: Config)
    requires Under(a, b) && Describes(a, k)
    ensures Describes(b, k)
  {
    hide Covers;
    assert Within(a.spill, b.spill);
    forall r | 0 <= r < 10 ensures Covers(b.reg[r], k.regs[r]) {
      assert Within(a.reg[r], b.reg[r]);
    }
  }

  lemma UnderMoves(p: Program, pc: nat, a: Point, b: Point)
    requires Under(a, b) && Moves(p, pc, b)
    ensures Moves(p, pc, a)
  {
    hide Under, Covers, Step, Obeys;
    forall k, gate {:trigger Step(p, gate, k)} | Obeys(gate) && Describes(a, k) && k.pc == pc
      ensures !Step(p, gate, k).Stuck?
    {
      UnderDescribes(a, b, k);
    }
  }

  lemma WithinJoin(a: Kind, b: Kind, bound: Kind)
    requires Within(a, bound) && Within(b, bound)
    ensures Within(JoinKind(a, b), bound)
  {
    hide IsScalar, IsHandle;
    forall v | Covers(JoinKind(a, b), v) ensures Covers(bound, v) {
      assert Covers(a, v) || Covers(b, v);
    }
  }

  lemma UnderJoin(d: Point, s: Point, bound: Point)
    requires s.reached && Under(d, bound) && Under(s, bound) && Inhabited(d) && Inhabited(s)
    ensures Under(Join(d, s), bound) && Inhabited(Join(d, s))
  {
    hide Within;
    if d.reached {
      WithinJoin(d.spill, s.spill, bound.spill);
      forall r | 0 <= r < 10 ensures Within(Join(d, s).reg[r], bound.reg[r]) {
        WithinJoin(d.reg[r], s.reg[r], bound.reg[r]);
      }
    }
  }

  // The immediate fits its field.
  ghost predicate Fields(p: Program)
  {
    forall pc :: 0 <= pc < |p.insns| ==> -0x8000_0000 <= p.insns[pc].imm < 0x8000_0000
  }

  // ---- Transfers are as small as they can be ----

  // Described configurations with a chosen register, or a chosen spill slot.
  function Chosen(f: Point, pc: nat, r: nat, v: Val): (k: Config)
    requires r < 10
    ensures Shape(k) && k.pc == pc
  {
    var k := Sample(f, pc, false);
    k.(regs := k.regs[r := v])
  }

  function Spilled(f: Point, pc: nat, v: Val): (k: Config)
    ensures Shape(k) && k.pc == pc
  {
    Sample(f, pc, false).(spill := v)
  }

  lemma ChosenDescribed(f: Point, pc: nat, r: nat, v: Val)
    requires f.reached && Inhabited(f) && r < 10
    ensures Covers(f.reg[r], v) ==> Describes(f, Chosen(f, pc, r, v))
    ensures Covers(f.spill, v) ==> Describes(f, Spilled(f, pc, v))
  {
    SampleDescribed(f, pc, false);
  }

  // What an inductive table covers after one step of a described configuration.
  lemma Successor(p: Program, stop: nat, t: seq<Point>, pc: nat, f: Point, gate: Gate, k: Config)
    requires pc < stop && Inductive(p, stop, t) && Obeys(gate) && k.pc == pc && Under(f, t[pc]) && Describes(f, k)
    requires pc < |p.insns| && Check(p, pc, f, 0).None?
    ensures var s := Step(p, gate, k); s.Running? ==> s.k.pc <= |p.insns| && Describes(t[s.k.pc], s.k)
  {
    UnderDescribes(f, t[pc], k);
    hide Step, Obeys, Describes, Under, Check;
  }

  // A described configuration in which register r, after the instruction, holds v.
  function Leading(x: Insn, f: Point, pc: nat, r: nat, v: Val): (k: Config)
    requires r < 10
    ensures Shape(k) && k.pc == pc
  {
    if x.code.MovReg? && r == x.dst && x.src < 10 then Chosen(f, pc, x.src, v)
    else if x.code.Ldx? && r == x.dst then Spilled(f, pc, v)
    else if x.code.MovImm? && r == x.dst then Sample(f, pc, false)
    else Chosen(f, pc, r, v)
  }

  function LeadingSpill(x: Insn, f: Point, pc: nat, v: Val): (k: Config)
    ensures Shape(k) && k.pc == pc
  {
    if x.code.Stx? && x.src < 10 then Chosen(f, pc, x.src, v) else Spilled(f, pc, v)
  }

  ghost predicate IsMove(x: Insn)
  {
    x.code.MovReg? || x.code.MovImm? || x.code.Stx? || x.code.Ldx?
  }

  // A move of a described configuration goes to the next instruction.
  lemma MoveSteps(p: Program, pc: nat, f: Point, gate: Gate, k: Config)
    requires pc < |p.insns| && Check(p, pc, f, 0).None? && Describes(f, k) && k.pc == pc && IsMove(p.insns[pc])
    ensures var (x, s) := (p.insns[pc], Step(p, gate, k));
      && Sized(x) && s.Running? && s.k.pc == pc + 1
      && s.k.spill == (if x.code.Stx? then k.regs[x.src] else k.spill)
      && s.k.regs == (if x.code.MovReg? then k.regs[x.dst := k.regs[x.src]]
                      else if x.code.MovImm? then k.regs[x.dst := Def(Scalar(Widen(x.imm)))]
                      else if x.code.Ldx? then k.regs[x.dst := k.spill] else k.regs)
  {
  }

  lemma MoveRegister(p: Program, stop: nat, t: seq<Point>, pc: nat, f: Point, r: nat, v: Val)
    requires pc < |p.insns| && f.reached && Inhabited(f) && Check(p, pc, f, 0).None? && Fields(p)
    requires pc < stop && Inductive(p, stop, t) && Under(f, t[pc]) && IsMove(p.insns[pc]) && Sized(p.insns[pc])
    requires r < 10 && Covers(Transfer(p, p.insns[pc], f).falls.value.reg[r], v)
    ensures t[pc + 1].reached && Covers(t[pc + 1].reg[r], v)
  {
    var x, gate := p.insns[pc], Always(RELEASE, Scalar(0));
    var k := Leading(x, f, pc, r, v);
    AlwaysObeys(RELEASE, Scalar(0));
    LeadingDescribed(p, f, pc, r, v);
    hide Inductive, Obeys, Under, Check, Step, Inhabited, Sample, Covers;
    Successor(p, stop, t, pc, f, gate, k);
    MoveSteps(p, pc, f, gate, k);
    if x.code.MovImm? && r == x.dst { ImmediateTight(x.imm, v, t[pc + 1].reg[r]); }
  }

  lemma MoveSpill(p: Program, stop: nat, t: seq<Point>, pc: nat, f: Point, v: Val)
    requires pc < |p.insns| && f.reached && Inhabited(f) && Check(p, pc, f, 0).None?
    requires pc < stop && Inductive(p, stop, t) && Under(f, t[pc]) && IsMove(p.insns[pc]) && Sized(p.insns[pc])
    requires Covers(Transfer(p, p.insns[pc], f).falls.value.spill, v)
    ensures t[pc + 1].reached && Covers(t[pc + 1].spill, v)
  {
    var x, gate := p.insns[pc], Always(RELEASE, Scalar(0));
    var k := LeadingSpill(x, f, pc, v);
    AlwaysObeys(RELEASE, Scalar(0));
    LeadingDescribed(p, f, pc, 0, v);
    hide Inductive, Obeys, Under, Check, Step, Inhabited, Sample, Covers;
    Successor(p, stop, t, pc, f, gate, k);
    MoveSteps(p, pc, f, gate, k);
  }

  // The table at the next instruction covers all that a move passes on.
  lemma MoveTight(p: Program, stop: nat, t: seq<Point>, pc: nat, f: Point)
    requires pc < |p.insns| && f.reached && Inhabited(f) && Check(p, pc, f, 0).None? && Fields(p)
    requires |t| == |p.insns| + 1 && pc < stop && Inductive(p, stop, t) && Under(f, t[pc])
    requires IsMove(p.insns[pc]) && Sized(p.insns[pc])
    ensures Under(Transfer(p, p.insns[pc], f).falls.value, t[pc + 1])
  {
    hide Inductive, Check, Under, Covers;
    var out := Transfer(p, p.insns[pc], f).falls.value;
    forall r: nat, v | r < 10 && Covers(out.reg[r], v) ensures Covers(t[pc + 1].reg[r], v) {
      MoveRegister(p, stop, t, pc, f, r, v);
    }
    forall v | Covers(out.spill, v) ensures Covers(t[pc + 1].spill, v) {
      MoveSpill(p, stop, t, pc, f, v);
    }
    MoveLands(p, stop, t, pc, f);
    UnderWhen(out, t[pc + 1]);
  }

  lemma MoveLands(p: Program, stop: nat, t: seq<Point>, pc: nat, f: Point)
    requires pc < |p.insns| && f.reached && Inhabited(f) && Check(p, pc, f, 0).None?
    requires pc < stop && Inductive(p, stop, t) && Under(f, t[pc]) && IsMove(p.insns[pc])
    ensures t[pc + 1].reached
  {
    var gate := Always(RELEASE, Scalar(0));
    AlwaysObeys(RELEASE, Scalar(0));
    SampleDescribed(f, pc, false);
    hide Inductive, Obeys, Under, Check, Step, Inhabited, Sample, Covers;
    Successor(p, stop, t, pc, f, gate, Sample(f, pc, false));
    MoveSteps(p, pc, f, gate, Sample(f, pc, false));
  }

  lemma LeadingDescribed(p: Program, f: Point, pc: nat, r: nat, v: Val)
    requires pc < |p.insns| && f.reached && Inhabited(f) && r < 10 && Sized(p.insns[pc])
    requires var c := p.insns[pc].code; c.MovReg? || c.MovImm? || c.Stx? || c.Ldx?
    ensures var (x, out) := (p.insns[pc], Transfer(p, p.insns[pc], f).falls.value);
      && (Covers(out.reg[r], v) ==> Describes(f, Leading(x, f, pc, r, v)))
      && (Covers(out.spill, v) ==> Describes(f, LeadingSpill(x, f, pc, v)))
  {
    var x := p.insns[pc];
    hide Describes, Covers, Sample;
    SampleDescribed(f, pc, false);
    ChosenDescribed(f, pc, r, v);
    if x.code.MovReg? || x.code.Stx? { ChosenDescribed(f, pc, x.src, v); }
  }

  // One nonzero immediate already needs the scalar kind.
  lemma ImmediateTight(imm: int, v: Val, bound: Kind)
    requires -0x8000_0000 <= imm < 0x8000_0000 && Covers(bound, Def(Scalar(Widen(imm))))
    requires Covers(if imm != 0 then SCALAR else ZERO, v)
    ensures Covers(bound, v)
  {
    if imm < 0 { assert Widen(imm) == imm + U64; }
  }

  lemma UnderWhen(a: Point, b: Point)
    requires b.reached && forall v :: Covers(a.spill, v) ==> Covers(b.spill, v)
    requires forall r, v :: 0 <= r < 10 && Covers(a.reg[r], v) ==> Covers(b.reg[r], v)
    ensures Under(a, b)
  {
  }

  // ---- Branches ----

  // A described configuration whose tested register holds w and whose register r holds v.
  function Tested(x: Insn, f: Point, pc: nat, w: Val, r: nat, v: Val): (k: Config)
    requires r < 10 && x.dst < 10
    ensures Shape(k) && k.pc == pc
  {
    var k := Chosen(f, pc, r, v);
    k.(regs := k.regs[x.dst := w])
  }

  function TestedSpill(x: Insn, f: Point, pc: nat, w: Val, v: Val): (k: Config)
    requires x.dst < 10
    ensures Shape(k) && k.pc == pc
  {
    Chosen(f, pc, x.dst, w).(spill := v)
  }

  lemma TestedDescribed(x: Insn, f: Point, pc: nat, w: Val, r: nat, v: Val)
    requires f.reached && Inhabited(f) && x.dst < 10 && Covers(f.reg[x.dst], w) && r < 10
    ensures Covers(f.reg[r], v) ==> Describes(f, Tested(x, f, pc, w, r, v))
    ensures Covers(f.spill, v) ==> Describes(f, TestedSpill(x, f, pc, w, v))
  {
    hide Covers, Sample;
    ChosenDescribed(f, pc, r, v);
    ChosenDescribed(f, pc, x.dst, w);
  }

  // A test of a null takes the branch, of a handle falls through.
  lemma BranchSteps(p: Program, pc: nat, f: Point, gate: Gate, k: Config)
    requires pc < |p.insns| && Check(p, pc, f, 0).None? && Describes(f, k) && k.pc == pc && p.insns[pc].code.Jeq?
    ensures var (x, s) := (p.insns[pc], Step(p, gate, k));
      && x.dst < 10 && x.off > 0 && s.Running? && s.k.regs == k.regs && s.k.spill == k.spill
      && s.k.pc == pc + 1 + (if k.regs[x.dst] == Def(Scalar(0)) then x.off else 0)
  {
  }

  // Where a tested value w leads, the table covers each register beside it.
  lemma BranchCovers(p: Program, stop: nat, t: seq<Point>, pc: nat, f: Point, w: Val)
    requires pc < |p.insns| && f.reached && Inhabited(f) && Check(p, pc, f, 0).None? && |t| == |p.insns| + 1
    requires pc < stop && Inductive(p, stop, t) && Under(f, t[pc]) && p.insns[pc].code.Jeq? && p.insns[pc].dst < 10
    requires Covers(f.reg[p.insns[pc].dst], w)
    ensures 0 < p.insns[pc].off < |p.insns| - pc - 1
    ensures var (x, n) := (p.insns[pc], pc + 1 + (if w == Def(Scalar(0)) then p.insns[pc].off else 0));
      && t[n].reached && Covers(t[n].reg[x.dst], w)
      && (forall r, v :: 0 <= r < 10 && r != x.dst && Covers(f.reg[r], v) ==> Covers(t[n].reg[r], v))
      && (forall v :: Covers(f.spill, v) ==> Covers(t[n].spill, v))
  {
    var x, gate := p.insns[pc], Always(RELEASE, Scalar(0));
    CheckForms(p, pc, f, 0);
    AlwaysObeys(RELEASE, Scalar(0));
    hide Inductive, Obeys, Under, Check, Step, Inhabited, Sample, Covers;
    var n := pc + 1 + (if w == Def(Scalar(0)) then x.off else 0);
    forall r: nat, v | r < 10 && Covers(f.reg[r], v)
      ensures t[n].reached && Covers(t[n].reg[x.dst], w) && (r != x.dst ==> Covers(t[n].reg[r], v))
    {
      BranchReaches(p, stop, t, pc, f, gate, w, r, v);
    }
    forall v | Covers(f.spill, v) ensures t[n].reached && Covers(t[n].spill, v) {
      var k := TestedSpill(x, f, pc, w, v);
      TestedDescribed(x, f, pc, w, 0, v);
      Successor(p, stop, t, pc, f, gate, k);
      BranchSteps(p, pc, f, gate, k);
    }
    assert Covers(f.reg[x.dst], w);
  }

  lemma BranchReaches(p: Program, stop: nat, t: seq<Point>, pc: nat, f: Point, gate: Gate, w: Val, r: nat, v: Val)
    requires pc < |p.insns| && f.reached && Inhabited(f) && Check(p, pc, f, 0).None? && |t| == |p.insns| + 1
    requires pc < stop && Inductive(p, stop, t) && Under(f, t[pc]) && p.insns[pc].code.Jeq?
    requires p.insns[pc].dst < 10 && Obeys(gate)
    requires 0 < p.insns[pc].off < |p.insns| - pc - 1
    requires Covers(f.reg[p.insns[pc].dst], w) && r < 10 && Covers(f.reg[r], v)
    ensures var (x, n) := (p.insns[pc], pc + 1 + (if w == Def(Scalar(0)) then p.insns[pc].off else 0));
      t[n].reached && Covers(t[n].reg[x.dst], w) && (r != x.dst ==> Covers(t[n].reg[r], v))
  {
    var x := p.insns[pc];
    hide Inductive, Obeys, Under, Check, Step, Inhabited, Sample, Covers;
    var k := Tested(x, f, pc, w, r, v);
    TestedDescribed(x, f, pc, w, r, v);
    Successor(p, stop, t, pc, f, gate, k);
    BranchSteps(p, pc, f, gate, k);
    assert k.regs[x.dst] == w && (r != x.dst ==> k.regs[r] == v);
  }

  lemma BranchTight(p: Program, stop: nat, t: seq<Point>, pc: nat, f: Point)
    requires pc < |p.insns| && f.reached && Inhabited(f) && Check(p, pc, f, 0).None? && |t| == |p.insns| + 1
    requires pc < stop && Inductive(p, stop, t) && Under(f, t[pc]) && p.insns[pc].code.Jeq? && Sized(p.insns[pc])
    ensures 0 < p.insns[pc].off < |p.insns| - pc - 1
    ensures var (x, out) := (p.insns[pc], Transfer(p, p.insns[pc], f));
      && (out.falls.Some? ==> Under(out.falls.value, t[pc + 1]))
      && (out.taken.Some? ==> Under(out.taken.value, t[pc + 1 + x.off]))
  {
    var x, kind := p.insns[pc], f.reg[p.insns[pc].dst];
    CheckForms(p, pc, f, 0);
    var out := Transfer(p, x, f);
    assert IsDefined(kind) && !kind.scalar;
    hide Inductive, Under, Check, Inhabited;
    if out.taken.Some? {
      BranchCovers(p, stop, t, pc, f, Def(Scalar(0)));
      UnderWhen(out.taken.value, t[pc + 1 + x.off]);
    }
    if out.falls.Some? {
      forall w | Covers(kind.(zero := false), w) ensures Covers(t[pc + 1].reg[x.dst], w) && w != Def(Scalar(0)) {
        BranchCovers(p, stop, t, pc, f, w);
      }
      BranchCovers(p, stop, t, pc, f, Def(Exactly(1, 0, 0)));
      UnderWhen(out.falls.value, t[pc + 1]);
    }
  }

  // ---- Calls ----

  // What a call of one operation may return, as a kind.
  function Returns(operation: nat): Kind
  {
    if operation == ACQUIRE then NULLABLE else if operation == READ then SCALAR else ZERO
  }

  lemma ReturnsLawful(operation: nat, v: Val)
    requires Covers(Returns(operation), v)
    ensures v.Def? && Obeys(Always(operation, v.c))
  {
    AlwaysObeys(operation, v.c);
  }

  lemma CallSteps(p: Program, pc: nat, f: Point, k: Config, c: Capability)
    requires pc < |p.insns| && Check(p, pc, f, 0).None? && Describes(f, k) && k.pc == pc && p.insns[pc].code.Call?
    ensures var s := Step(p, Always(Operation(p, p.insns[pc]), c), k);
      s.Running? && s.k.pc == pc + 1 && s.k.spill == k.spill && s.k.regs == AfterCall(k.regs, Def(c))
  {
    hide Operation;
    var op := Operation(p, p.insns[pc]);
    assert Covers(f.reg[1], k.regs[1]);
    var calls := k.calls + [GateCall(op, k.pc, k.regs[1].c)];
    assert calls[|calls| - 1].operation == op;
  }

  // After a call returning w the table covers w in r0 and what f has in r6 to r9 and the sidecar.
  lemma CallCovers(p: Program, stop: nat, t: seq<Point>, pc: nat, f: Point, w: Val, k: Config)
    requires pc < |p.insns| && f.reached && Check(p, pc, f, 0).None? && |t| == |p.insns| + 1
    requires pc < stop && Inductive(p, stop, t) && Under(f, t[pc]) && p.insns[pc].code.Call?
    requires Covers(Returns(Operation(p, p.insns[pc])), w) && Describes(f, k) && k.pc == pc
    ensures Shape(k) && t[pc + 1].reached && Covers(t[pc + 1].spill, k.spill)
    ensures forall r :: 0 <= r < 10 ==> Covers(t[pc + 1].reg[r], AfterCall(k.regs, w)[r])
  {
    var op := Operation(p, p.insns[pc]);
    ReturnsLawful(op, w);
    hide Inductive, Obeys, Under, Check, Step, Covers, Operation;
    Successor(p, stop, t, pc, f, Always(op, w.c), k);
    CallSteps(p, pc, f, k, w.c);
  }

  lemma CallTight(p: Program, stop: nat, t: seq<Point>, pc: nat, f: Point)
    requires pc < |p.insns| && f.reached && Inhabited(f) && Check(p, pc, f, 0).None? && |t| == |p.insns| + 1
    requires pc < stop && Inductive(p, stop, t) && Under(f, t[pc]) && p.insns[pc].code.Call?
    ensures Under(Transfer(p, p.insns[pc], f).falls.value, t[pc + 1])
  {
    var op, out := Operation(p, p.insns[pc]), Transfer(p, p.insns[pc], f).falls.value;
    SampleDescribed(f, pc, false);
    ReturnsZero(op);
    hide Inductive, Under, Check, Inhabited, Sample, Operation;
    forall r: nat, v | r < 10 && Covers(out.reg[r], v) ensures t[pc + 1].reached && Covers(t[pc + 1].reg[r], v) {
      if r == 0 {
        CallCovers(p, stop, t, pc, f, v, Sample(f, pc, false));
        assert AfterCall(Sample(f, pc, false).regs, v)[0] == v;
      } else if r <= 5 {
        CallCovers(p, stop, t, pc, f, Def(Scalar(0)), Sample(f, pc, false));
        assert AfterCall(Sample(f, pc, false).regs, Def(Scalar(0)))[r] == Undef == v;
      } else {
        ChosenDescribed(f, pc, r, v);
        CallCovers(p, stop, t, pc, f, Def(Scalar(0)), Chosen(f, pc, r, v));
        assert AfterCall(Chosen(f, pc, r, v).regs, Def(Scalar(0)))[r] == v;
      }
    }
    forall v | Covers(out.spill, v) ensures Covers(t[pc + 1].spill, v) {
      ChosenDescribed(f, pc, 0, v);
      CallCovers(p, stop, t, pc, f, Def(Scalar(0)), Spilled(f, pc, v));
    }
    CallCovers(p, stop, t, pc, f, Def(Scalar(0)), Sample(f, pc, false));
    UnderWhen(out, t[pc + 1]);
  }

  lemma ReturnsZero(operation: nat)
    ensures Covers(Returns(operation), Def(Scalar(0)))
  {
  }

  // ---- The pass ----

  // A transfer passes on no more than any inductive table has at its targets.
  lemma TransferTight(p: Program, stop: nat, t: seq<Point>, pc: nat, f: Point)
    requires pc < |p.insns| && f.reached && Inhabited(f) && Check(p, pc, f, 0).None? && Fields(p)
    requires |t| == |p.insns| + 1 && pc < stop && Inductive(p, stop, t) && Under(f, t[pc])
    ensures var x := p.insns[pc];
      Sized(x) && (x.code.Jeq? ==> 0 < x.off < |p.insns| - pc - 1) && var out := Transfer(p, x, f);
      && (out.falls.Some? ==> Under(out.falls.value, t[pc + 1]))
      && (out.taken.Some? ==> x.code.Jeq? && Under(out.taken.value, t[pc + 1 + x.off]))
  {
    CheckForms(p, pc, f, 0);
    hide Inductive, Under, Check, Inhabited, Fields, Operation, Covers;
    var code := p.insns[pc].code;
    match code {
      case Jeq => BranchTight(p, stop, t, pc, f);
      case Call => CallTight(p, stop, t, pc, f);
      case Exit =>
      case Other =>
      case _ => MoveTight(p, stop, t, pc, f);
    }
  }

  lemma TransferInhabited(p: Program, x: Insn, f: Point)
    requires Sized(x) && f.reached && Inhabited(f)
    ensures var out := Transfer(p, x, f);
      && (out.falls.Some? ==> Inhabited(out.falls.value)) && (out.taken.Some? ==> Inhabited(out.taken.value))
  {
  }

  // The table so far lies within t, and is inhabited.
  ghost predicate Bounded(flow: seq<Point>, t: seq<Point>)
  {
    |flow| == |t| && forall i :: 0 <= i < |flow| ==> Under(flow[i], t[i]) && Inhabited(flow[i])
  }

  lemma PropagateBounded(p: Program, stop: nat, flow: seq<Point>, pc: nat, t: seq<Point>)
    requires pc < |p.insns| && |flow| == |p.insns| + 1 && Check(p, pc, flow[pc], 0).None? && Fields(p)
    requires Bounded(flow, t) && pc < stop && Inductive(p, stop, t)
    ensures Bounded(Propagate(p, flow, pc), t)
  {
    var x := p.insns[pc];
    CheckForms(p, pc, flow[pc], 0);
    hide Inductive, Check, Fields, Join, Under, Inhabited;
    assert Under(flow[pc], t[pc]) && Inhabited(flow[pc]);
    TransferTight(p, stop, t, pc, flow[pc]);
    TransferInhabited(p, x, flow[pc]);
    var out := Transfer(p, x, flow[pc]);
    if out.falls.Some? { UnderJoin(flow[pc + 1], out.falls.value, t[pc + 1]); }
    if out.taken.Some? { UnderJoin(flow[pc + 1 + x.off], out.taken.value, t[pc + 1 + x.off]); }
  }

  lemma StartBounded(p: Program, stop: nat, t: seq<Point>)
    requires Inductive(p, stop, t)
    ensures Bounded(EntryFlow(|p.insns|), t)
  {
    assert Describes(t[0], Start());
    assert forall r :: 0 <= r < 10 ==> Covers(t[0].reg[r], Start().regs[r]);
  }

  // ---- The exact verdict ----

  // The acquisition sites before pc.
  function SitesBefore(p: Program, pc: nat): set<nat>
    requires pc <= |p.insns|
  {
    set i | 0 <= i < pc && Calls(p, p.insns[i], ACQUIRE)
  }

  lemma NextSite(p: Program, pc: nat)
    requires pc < |p.insns|
    ensures |SitesBefore(p, pc + 1)| == |SitesBefore(p, pc)| + IsAcquire(p, p.insns[pc])
    ensures IsAcquire(p, p.insns[pc]) == (if Calls(p, p.insns[pc], ACQUIRE) then 1 else 0)
  {
    OperationExactly(p, p.insns[pc]);
    var before := SitesBefore(p, pc);
    assert SitesBefore(p, pc + 1) == if Calls(p, p.insns[pc], ACQUIRE) then before + {pc} else before;
  }

  lemma {:induction false} SitesGrow(p: Program, a: nat, b: nat)
    requires a <= b <= |p.insns|
    ensures |SitesBefore(p, a)| <= |SitesBefore(p, b)|
    decreases b - a
  {
    if a < b {
      NextSite(p, a);
      SitesGrow(p, a + 1, b);
    }
  }

  // A table from which no step of the first stop instructions gets stuck.
  ghost predicate Safe(p: Program, stop: nat, t: seq<Point>)
  {
    Inductive(p, stop, t) && forall pc :: 0 <= pc < stop ==> Moves(p, pc, t[pc])
  }

  // Every table for the first stop instructions reaches pc.
  ghost predicate Reached(p: Program, stop: nat, pc: nat)
    requires pc <= |p.insns|
  {
    forall t: seq<Point> :: Inductive(p, stop, t) ==> t[pc].reached
  }

  // What admission asks of the first stop instructions, in their fields and steps.
  ghost predicate Passes(p: Program, stop: nat)
    requires stop <= |p.insns|
  {
    && (forall pc :: 0 <= pc < stop ==> Encodes(p, pc) && Reached(p, stop, pc))
    && |SitesBefore(p, stop)| <= 2 && exists t :: Safe(p, stop, t)
  }

  // A program to accept: all its instructions pass, it acquires and exits, and it does not run
  // off its end.
  ghost predicate Admissible(p: Program)
  {
    var n := |p.insns|;
    && Passes(p, n) && |SitesBefore(p, n)| > 0 && (exists pc :: 0 <= pc < n && p.insns[pc].code.Exit?)
    && exists t: seq<Point> :: Safe(p, n, t) && !t[n].reached
  }

  // A program with an instruction outside the grammar, after instructions that pass.
  ghost predicate Foreign(p: Program, pc: nat)
  {
    pc < |p.insns| && p.insns[pc].code.Other? && Passes(p, pc) && Reached(p, pc, pc)
  }

  // ---- What the pass has accepted ----

  // The pass stands at pc: the entries before it are processed, the counts are right, and every
  // table for the instructions before it bounds what it has.
  ghost predicate Standing(p: Program, f: seq<Point>, pc: nat, acquisitions: nat, hasExit: bool)
  {
    && pc <= |p.insns| && |f| == |p.insns| + 1 && f[0] == Entry() && acquisitions <= 2
    && (forall i :: 0 <= i < pc ==> Processed(p, f, i))
    && acquisitions == |SitesBefore(p, pc)|
    && (hasExit <==> exists i :: 0 <= i < pc && p.insns[i].code.Exit?)
    && (forall t :: Inductive(p, pc, t) ==> Bounded(f, t))
    && (forall i :: 0 <= i < |f| ==> Inhabited(f[i]))
  }

  lemma StandingStarts(p: Program)
    ensures Standing(p, EntryFlow(|p.insns|), 0, 0, false)
  {
    var f := EntryFlow(|p.insns|);
    assert SitesBefore(p, 0) == {};
    forall t | Inductive(p, 0, t) ensures Bounded(f, t) {
      StartBounded(p, 0, t);
    }
  }

  lemma InductiveFewer(p: Program, a: nat, b: nat, t: seq<Point>)
    requires a <= b && Inductive(p, b, t)
    ensures Inductive(p, a, t)
  {
    hide Describes, Step, Obeys;
  }

  lemma StandingSteps(p: Program, f: seq<Point>, pc: nat, acquisitions: nat, hasExit: bool)
    requires Standing(p, f, pc, acquisitions, hasExit) && Fields(p) && pc < |p.insns|
    requires Check(p, pc, f[pc], acquisitions).None?
    ensures Check(p, pc, f[pc], 0).None?
    ensures Standing(p, Propagate(p, f, pc), pc + 1, acquisitions + IsAcquire(p, p.insns[pc]),
                     hasExit || p.insns[pc].code.Exit?)
  {
    hide Inductive, Check, Propagate, IsAcquire, Processed, Fields, Bounded, Inhabited, SitesBefore;
    CheckCount(p, pc, f[pc], acquisitions);
    CheckLimits(p, pc, f[pc], acquisitions);
    PropagateProcessed(p, f, pc);
    NextSite(p, pc);
    forall t | Inductive(p, pc + 1, t) ensures Bounded(Propagate(p, f, pc), t) {
      InductiveFewer(p, pc, pc + 1, t);
      PropagateBounded(p, pc + 1, f, pc, t);
    }
    PropagateInhabited(p, f, pc);
  }

  lemma PropagateInhabited(p: Program, f: seq<Point>, pc: nat)
    requires pc < |p.insns| && |f| == |p.insns| + 1 && Check(p, pc, f[pc], 0).None?
    requires forall i :: 0 <= i < |f| ==> Inhabited(f[i])
    ensures forall i :: 0 <= i < |f| ==> Inhabited(Propagate(p, f, pc)[i])
  {
    var x := p.insns[pc];
    CheckForms(p, pc, f[pc], 0);
    TransferInhabited(p, x, f[pc]);
    hide Check, Join, Inhabited;
    var out := Transfer(p, x, f[pc]);
    if out.falls.Some? { JoinInhabited(f[pc + 1], out.falls.value); }
    if out.taken.Some? { JoinInhabited(f[pc + 1 + x.off], out.taken.value); }
  }

  lemma JoinInhabited(d: Point, s: Point)
    requires Inhabited(d) && Inhabited(s)
    ensures Inhabited(Join(d, s))
  {
  }

  // The processed entries are themselves a table, and a safe one.
  lemma StandingSafe(p: Program, f: seq<Point>, pc: nat, acquisitions: nat, hasExit: bool)
    requires Standing(p, f, pc, acquisitions, hasExit)
    ensures Safe(p, pc, f)
  {
    EntryDescribes();
    hide Obeys, Describes, Step, Processed, Bounded, Inhabited, SitesBefore, Check;
    forall k: Config, gate: Gate {:trigger Step(p, gate, k)} | Obeys(gate) && k.pc < pc && Describes(f[k.pc], k)
      ensures Shape(k) && !Step(p, gate, k).Stuck? && (Step(p, gate, k).Running? ==>
        var n := Step(p, gate, k).k; n.pc <= |p.insns| && Describes(f[n.pc], n))
    {
      DescribedReached(f[k.pc], k);
      ProcessedMeans(p, f, k.pc);
      ProcessedMoves(p, f, k.pc, gate, k);
      if Step(p, gate, k).Running? { ProcessedSteps(p, f, k.pc, gate, k); }
    }
  }

  lemma ProcessedMoves(p: Program, f: seq<Point>, i: nat, gate: Gate, k: Config)
    requires i < |p.insns| && |f| == |p.insns| + 1 && Processed(p, f, i) && Obeys(gate)
    requires Describes(f[i], k) && k.pc == i
    ensures Shape(k) && !Step(p, gate, k).Stuck?
  {
    hide Obeys, Describes, Step, ClosedAt, Check;
    DescribedReached(f[i], k);
    StepWithin(p, gate, f[i], k);
  }

  // A processed entry's steps stay described.
  lemma ProcessedSteps(p: Program, f: seq<Point>, i: nat, gate: Gate, k: Config)
    requires i < |p.insns| && |f| == |p.insns| + 1 && Processed(p, f, i) && Obeys(gate)
    requires Describes(f[i], k) && k.pc == i && Step(p, gate, k).Running?
    ensures var n := Step(p, gate, k).k; n.pc <= |p.insns| && Describes(f[n.pc], n)
  {
    ProcessedMeans(p, f, i);
    hide Obeys, Check, Describes, Step, Leq, Transfer, Processed;
    StepWithin(p, gate, f[i], k);
    var n := Step(p, gate, k).k;
    var out := Transfer(p, p.insns[i], f[i]);
    if n.pc == i + 1 && out.falls.Some? && Describes(out.falls.value, n) {
      LeqDescribes(out.falls.value, f[n.pc], n);
    } else {
      LeqDescribes(out.taken.value, f[n.pc], n);
    }
  }

  // What the pass has accepted passes.
  lemma StandingPasses(p: Program, f: seq<Point>, pc: nat, acquisitions: nat, hasExit: bool)
    requires Standing(p, f, pc, acquisitions, hasExit)
    ensures Passes(p, pc) && Safe(p, pc, f)
    ensures f[pc].reached ==> Reached(p, pc, pc)
  {
    StandingSafe(p, f, pc, acquisitions, hasExit);
    hide Obeys, Describes, Step, Processed, SitesBefore, Check, Inductive, Encodes, Moves, Under, Inhabited;
    forall i | 0 <= i < pc ensures Encodes(p, i) && f[i].reached {
      ProcessedMeans(p, f, i);
      EncodedWhenChecked(p, i, f[i], 0);
    }
    forall t: seq<Point>, i | Inductive(p, pc, t) && 0 <= i <= pc && f[i].reached ensures t[i].reached {
      assert Bounded(f, t);
      UnderReached(f[i], t[i]);
    }
  }

  lemma UnderReached(a: Point, b: Point)
    requires Under(a, b) && a.reached
    ensures b.reached
  {
  }

  // ---- Where the pass stops ----

  // Where a pass that stands somewhere ends, and why.
  ghost predicate Stops(p: Program, f: seq<Point>, pc: nat, acquisitions: nat, hasExit: bool, v: Verdict)
  {
    && Standing(p, f, pc, acquisitions, hasExit)
    && if pc == |p.insns| then
         v == if hasExit && acquisitions > 0 && !f[pc].reached then Admitted(f) else Rejected(Invalid)
       else Check(p, pc, f[pc], acquisitions).Some? && v == Rejected(Check(p, pc, f[pc], acquisitions).value)
  }

  lemma {:induction false} PassStops(p: Program, f: seq<Point>, pc: nat, acquisitions: nat, hasExit: bool)
    returns (end: seq<Point>, at: nat, count: nat, exits: bool)
    requires Standing(p, f, pc, acquisitions, hasExit) && Fields(p)
    ensures Stops(p, end, at, count, exits, AdmitFrom(p, f, pc, acquisitions, hasExit))
    decreases |p.insns| - pc
  {
    hide Standing, Check, Propagate, IsAcquire, Fields;
    StandingPlace(p, f, pc, acquisitions, hasExit);
    if pc < |p.insns| && Check(p, pc, f[pc], acquisitions).None? {
      StandingSteps(p, f, pc, acquisitions, hasExit);
      end, at, count, exits := PassStops(p, Propagate(p, f, pc), pc + 1, acquisitions + IsAcquire(p, p.insns[pc]),
                                         hasExit || p.insns[pc].code.Exit?);
    } else {
      end, at, count, exits := f, pc, acquisitions, hasExit;
    }
  }

  lemma StandingPlace(p: Program, f: seq<Point>, pc: nat, acquisitions: nat, hasExit: bool)
    requires Standing(p, f, pc, acquisitions, hasExit)
    ensures pc <= |p.insns| && |f| == |p.insns| + 1
  {
  }

  // ---- Instructions that pass are accepted ----

  // What the top entry describes stays described, whatever the step.
  lemma TopSteps(p: Program, gate: Gate, k: Config)
    requires Obeys(gate) && Describes(Top(), k) && Step(p, gate, k).Running?
    ensures Describes(Top(), Step(p, gate, k).k)
  {
    var n := Step(p, gate, k).k;
    if p.insns[k.pc].code.Call? {
      assert Lawful(n.calls[|n.calls| - 1], gate(n.calls));
    }
    hide Obeys;
  }

  lemma StepInside(p: Program, gate: Gate, k: Config)
    requires Shape(k) && k.pc < |p.insns| && Encodes(p, k.pc) && Step(p, gate, k).Running?
    ensures k.pc < Step(p, gate, k).k.pc <= |p.insns|
  {
  }

  lemma TopAbove(a: Point, k: Config)
    requires Describes(a, k)
    ensures Describes(Top(), k)
  {
    hide IsScalar, IsHandle;
  }

  // If the pass has not reached pc, the entries before it with nothing at pc, and everything
  // after it, are a table.
  lemma PaddedInductive(p: Program, f: seq<Point>, pc: nat, stop: nat)
    requires |f| == |p.insns| + 1 && pc < stop <= |p.insns| && f[0] == Entry() && !f[pc].reached
    requires forall i :: 0 <= i < pc ==> Processed(p, f, i)
    requires forall i :: 0 <= i < stop ==> Encodes(p, i)
    ensures Inductive(p, stop, Padded(f, pc)) && !Padded(f, pc)[pc].reached
  {
    var t := Padded(f, pc);
    EntryDescribes();
    hide Obeys, Describes, Step, Processed, Encodes;
    forall k: Config, gate: Gate {:trigger Step(p, gate, k)} | Obeys(gate) && k.pc < stop && Describes(t[k.pc], k)
      ensures Shape(k) && (Step(p, gate, k).Running? ==>
        var n := Step(p, gate, k).k; n.pc <= |p.insns| && Describes(t[n.pc], n))
    {
      PaddedSteps(p, f, pc, gate, k);
    }
  }

  lemma PaddedSteps(p: Program, f: seq<Point>, pc: nat, gate: Gate, k: Config)
    requires |f| == |p.insns| + 1 && pc < |p.insns| && !f[pc].reached && Obeys(gate)
    requires forall i :: 0 <= i < pc ==> Processed(p, f, i)
    requires k.pc < |p.insns| && Encodes(p, k.pc) && Describes(Padded(f, pc)[k.pc], k)
    ensures Shape(k) && (Step(p, gate, k).Running? ==>
      var n := Step(p, gate, k).k; n.pc <= |p.insns| && Describes(Padded(f, pc)[n.pc], n))
  {
    var t := Padded(f, pc);
    DescribedReached(t[k.pc], k);
    hide Obeys, Describes, Step, Processed, Encodes;
    var s := Step(p, gate, k);
    if s.Running? {
      StepInside(p, gate, k);
      if k.pc < pc {
        ProcessedSteps(p, f, k.pc, gate, k);
        TopAbove(f[s.k.pc], s.k);
      } else {
        TopSteps(p, gate, k);
      }
    }
  }

  // Among instructions that pass, none is refused.
  lemma PassingAccepted(p: Program, stop: nat, f: seq<Point>, pc: nat, acquisitions: nat, hasExit: bool)
    requires stop <= |p.insns| && Passes(p, stop) && pc < stop && Standing(p, f, pc, acquisitions, hasExit)
    ensures Check(p, pc, f[pc], acquisitions).None?
  {
    hide Check, Processed, Moves, Under, Inhabited, Encodes, SitesBefore, Operation, Inductive, Describes;
    var t :| Safe(p, stop, t);
    InductiveFewer(p, pc, stop, t);
    assert Bounded(f, t) && Reached(p, stop, pc);
    if !f[pc].reached {
      PaddedInductive(p, f, pc, stop);
      assert false;
    }
    UnderMoves(p, pc, f[pc], t[pc]);
    NextSite(p, pc);
    SitesGrow(p, pc + 1, stop);
    CheckExactly(p, pc, f[pc], acquisitions);
  }

  // So the pass stops no earlier.
  lemma NotBefore(p: Program, stop: nat, end: seq<Point>, at: nat, count: nat, exits: bool, v: Verdict)
    requires stop <= |p.insns| && Passes(p, stop) && Stops(p, end, at, count, exits, v)
    ensures at >= stop
  {
    hide Check, Standing, Passes;
    if at < stop { PassingAccepted(p, stop, end, at, count, exits); }
  }

  // ---- The verdict ----

  // The verdict of a pass that stops somewhere.
  lemma StopsAdmitted(p: Program, end: seq<Point>, at: nat, count: nat, exits: bool, v: Verdict)
    requires Stops(p, end, at, count, exits, v)
    ensures v.Admitted? <==> Admissible(p)
  {
    var n := |p.insns|;
    StandingPasses(p, end, at, count, exits);
    hide Passes, Safe, Inductive, Check, SitesBefore, Processed, Inhabited, Moves;
    if v.Admitted? {
      assert at == n && Safe(p, n, end) && !end[n].reached;
    }
    if Admissible(p) {
      NotBefore(p, n, end, at, count, exits, v);
      var t: seq<Point> :| Safe(p, n, t) && !t[n].reached;
      SafeInductive(p, n, t);
      assert Bounded(end, t);
      BoundedReached(end, t, n);
    }
  }

  lemma BoundedReached(f: seq<Point>, t: seq<Point>, i: nat)
    requires Bounded(f, t) && i < |f|
    ensures f[i].reached ==> t[i].reached
  {
    assert Under(f[i], t[i]);
    hide Within;
  }

  lemma SafeInductive(p: Program, stop: nat, t: seq<Point>)
    requires Safe(p, stop, t)
    ensures Inductive(p, stop, t)
  {
  }

  lemma StopsForeign(p: Program, end: seq<Point>, at: nat, count: nat, exits: bool, v: Verdict)
    requires Stops(p, end, at, count, exits, v)
    ensures v == Rejected(Unsupported) <==> exists pc: nat :: Foreign(p, pc)
  {
    StandingPasses(p, end, at, count, exits);
    if at < |p.insns| { CheckExactly(p, at, end[at], count); }
    hide Passes, Safe, Inductive, Check, SitesBefore, Processed, Inhabited, Moves, Encodes;
    if v == Rejected(Unsupported) {
      assert Foreign(p, at);
    }
    if pc: nat :| Foreign(p, pc) {
      NotBefore(p, pc, end, at, count, exits, v);
      if at > pc {
        PassesEncoded(p, at, pc);
        assert false;
      }
      SafeInductive(p, pc, end);
      assert end[pc].reached;
    }
  }

  lemma PassesEncoded(p: Program, stop: nat, pc: nat)
    requires pc < stop <= |p.insns| && Passes(p, stop)
    ensures !p.insns[pc].code.Other?
  {
    assert Encodes(p, pc);
  }

  // Admission accepts a program exactly if its instructions have admitted encodings with one or
  // two acquisition sites and an exit, some inductive table of kinds lets no step get stuck and
  // control not run off the end, and no inductive table leaves an instruction unreached. It
  // answers that an instruction is not supported exactly if one stands outside the grammar, is
  // reached, and the ones before it pass.
  lemma AdmittedSemantically(p: Program)
    requires Fields(p)
    ensures Admit(p).Admitted? <==> Admissible(p)
    ensures Admit(p) == Rejected(Unsupported) <==> exists pc: nat :: Foreign(p, pc)
  {
    hide Standing, Stops, Fields, AdmitFrom, Admissible, Foreign;
    StandingStarts(p);
    var end, at, count, exits := PassStops(p, EntryFlow(|p.insns|), 0, 0, false);
    StopsAdmitted(p, end, at, count, exits, Admit(p));
    StopsForeign(p, end, at, count, exits, Admit(p));
  }
}
