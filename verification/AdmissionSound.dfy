/** Admission is sound: whatever the gate answers within its contract, a run of an accepted
    program never gets stuck, and returns a scalar or is ended by the gate. */
module AdmissionSound {
  import opened Capabilities
  import opened Common
  import opened Bpf
  import opened Admission
  import opened AdmissionFixpoint

  // The values a kind stands for.
  predicate Covers(k: Kind, v: Val)
  {
    match v
    case Undef => k.uninit
    case Def(c) => (k.zero && c == Scalar(0)) || (k.scalar && IsScalar(c)) || (k.handle && IsHandle(c))
  }

  ghost predicate Describes(f: Point, k: Config)
  {
    f.reached && Shape(k) && Covers(f.spill, k.spill) && forall r :: 0 <= r < 10 ==> Covers(f.reg[r], k.regs[r])
  }

  lemma LeqDescribes(a: Point, b: Point, k: Config)
    requires Leq(a, b) && Describes(a, k)
    ensures Describes(b, k)
  {
  }

  lemma EntryDescribes()
    ensures Describes(Entry(), Start())
  {
  }

  // ---- One instruction ----

  // A step the checks allow is not stuck, and what it leaves is described by what the
  // transfer passes on to the place it leads to.
  ghost predicate StepsWithin(p: Program, pc: nat, f: Point, s: State)
    requires pc < |p.insns| && Sized(p.insns[pc])
  {
    var x := p.insns[pc];
    var out := Transfer(p, x, f);
    && !s.Stuck?
    && (s.Running? ==>
          || (s.k.pc == pc + 1 && out.falls.Some? && Describes(out.falls.value, s.k))
          || (x.code.Jeq? && s.k.pc == pc + 1 + x.off && out.taken.Some? && Describes(out.taken.value, s.k)))
  }

  lemma MoveWithin(p: Program, gate: Gate, f: Point, k: Config)
    requires k.pc < |p.insns| && Check(p, k.pc, f, 0).None? && Describes(f, k) && Sized(p.insns[k.pc])
    requires var c := p.insns[k.pc].code; c.MovReg? || c.MovImm? || c.Stx? || c.Ldx?
    ensures StepsWithin(p, k.pc, f, Step(p, gate, k))
  {
    var x := p.insns[k.pc];
    hide IsScalar, IsHandle;
    if x.code.MovImm? { ImmediateCovered(x.imm); }
  }

  lemma ImmediateCovered(imm: int)
    ensures Covers(if imm != 0 then SCALAR else ZERO, Def(Scalar(Widen(imm))))
  {
  }

  lemma BranchWithin(p: Program, gate: Gate, f: Point, k: Config)
    requires k.pc < |p.insns| && Check(p, k.pc, f, 0).None? && Describes(f, k) && Sized(p.insns[k.pc])
    requires p.insns[k.pc].code.Jeq?
    ensures StepsWithin(p, k.pc, f, Step(p, gate, k))
  {
    var x := p.insns[k.pc];
    assert Covers(f.reg[x.dst], k.regs[x.dst]);
  }

  lemma CallWithin(p: Program, gate: Gate, f: Point, k: Config)
    requires k.pc < |p.insns| && Check(p, k.pc, f, 0).None? && Describes(f, k) && Sized(p.insns[k.pc])
    requires p.insns[k.pc].code.Call? && Obeys(gate)
    ensures StepsWithin(p, k.pc, f, Step(p, gate, k))
  {
    var x := p.insns[k.pc];
    assert Covers(f.reg[1], k.regs[1]);
    var op := Operation(p, x);
    assert Accepts(op, k.regs[1]);
    var calls := k.calls + [GateCall(op, k.pc, k.regs[1].c)];
    assert Lawful(calls[|calls| - 1], gate(calls));
    hide IsScalar, IsHandle, Obeys;
    if gate(calls).Value? {
      var s := Step(p, gate, k);
      var out := Transfer(p, x, f).falls.value;
      ScalarsCovered(gate(calls).c);
      forall r | 0 <= r < 10 ensures Covers(out.reg[r], s.k.regs[r]) {
        if r > 5 { assert Covers(f.reg[r], k.regs[r]); }
      }
    }
  }

  lemma ScalarsCovered(c: Capability)
    ensures c == Scalar(0) ==> Covers(ZERO, Def(c)) && Covers(NULLABLE, Def(c))
    ensures IsHandle(c) ==> Covers(NULLABLE, Def(c))
    ensures IsScalar(c) ==> Covers(SCALAR, Def(c))
  {
  }

  lemma StepWithin(p: Program, gate: Gate, f: Point, k: Config)
    requires k.pc < |p.insns| && Check(p, k.pc, f, 0).None? && Describes(f, k) && Obeys(gate)
    ensures Sized(p.insns[k.pc]) && StepsWithin(p, k.pc, f, Step(p, gate, k))
  {
    CheckForms(p, k.pc, f, 0);
    hide StepsWithin, Obeys;
    var code := p.insns[k.pc].code;
    match code {
      case Jeq => BranchWithin(p, gate, f, k);
      case Call => CallWithin(p, gate, f, k);
      case Exit => ExitWithin(p, gate, f, k);
      case Other =>
      case _ => MoveWithin(p, gate, f, k);
    }
  }

  lemma ExitWithin(p: Program, gate: Gate, f: Point, k: Config)
    requires k.pc < |p.insns| && Check(p, k.pc, f, 0).None? && Describes(f, k) && Sized(p.insns[k.pc])
    requires p.insns[k.pc].code.Exit?
    ensures StepsWithin(p, k.pc, f, Step(p, gate, k))
  {
    assert Covers(f.reg[0], k.regs[0]);
  }

  // ---- Every reachable configuration ----

  // The table describes a configuration at its own pc, inside the program.
  ghost predicate Consistent(p: Program, flow: seq<Point>, k: Config)
  {
    k.pc < |p.insns| && |flow| == |p.insns| + 1 && Describes(flow[k.pc], k)
  }

  lemma StepConsistent(p: Program, gate: Gate, k: Config)
    requires Admit(p).Admitted? && Obeys(gate) && Consistent(p, Admit(p).flow, k)
    ensures !Step(p, gate, k).Stuck?
    ensures Step(p, gate, k).Running? ==> Consistent(p, Admit(p).flow, Step(p, gate, k).k)
  {
    hide Obeys, Check, Transfer, Admit, Leq, Describes, Step, Sized;
    var flow := Admit(p).flow;
    var end := |p.insns|;
    DescribedReached(flow[k.pc], k);
    AdmittedAt(p, k.pc);
    AdmittedEnds(p);
    StepWithin(p, gate, flow[k.pc], k);
    var s := Step(p, gate, k);
    if s.Running? {
      var out := Transfer(p, p.insns[k.pc], flow[k.pc]);
      if out.falls.Some? && s.k.pc == k.pc + 1 && Describes(out.falls.value, s.k) {
        LeqDescribes(out.falls.value, flow[s.k.pc], s.k);
      } else {
        LeqDescribes(out.taken.value, flow[s.k.pc], s.k);
      }
      DescribedReached(flow[s.k.pc], s.k);
    }
  }

  // What acceptance says about one instruction.
  lemma AdmittedAt(p: Program, pc: nat)
    requires Admit(p).Admitted? && pc < |p.insns|
    ensures |Admit(p).flow| == |p.insns| + 1 && Admit(p).flow[pc].reached
    ensures Check(p, pc, Admit(p).flow[pc], 0).None? && Sized(p.insns[pc])
    ensures p.insns[pc].code.Jeq? ==> 0 < p.insns[pc].off < |p.insns| - pc - 1
    ensures ClosedAt(p, pc, Admit(p).flow[pc], Admit(p).flow)
  {
    AdmittedIsClosed(p);
    hide Check, ClosedAt, Admit, Sized;
  }

  lemma DescribedReached(f: Point, k: Config)
    requires Describes(f, k)
    ensures f.reached && Shape(k)
  {
  }

  lemma StartConsistent(p: Program)
    requires Admit(p).Admitted?
    ensures Consistent(p, Admit(p).flow, Start())
  {
    EntryDescribes();
    AdmittedCounts(p);
    hide AdmitFrom, Describes;
  }

  lemma {:induction false} RunNotStuck(p: Program, gate: Gate, k: Config)
    requires Admit(p).Admitted? && Obeys(gate) && Consistent(p, Admit(p).flow, k)
    ensures !Run(p, gate, k).Stuck?
    decreases |p.insns| - k.pc
  {
    hide Step, Admit, Obeys, Describes;
    DescribedReached(Admit(p).flow[k.pc], k);
    StepConsistent(p, gate, k);
    var s := Step(p, gate, k);
    if s.Running? { RunNotStuck(p, gate, s.k); }
  }

  // Every run of an accepted program ends in a scalar or in a refusal by the gate: no undefined
  // value is used, no test sees anything but a null or a handle, every call gets the argument
  // its contract demands, and control stays inside.
  lemma AdmissionIsSound(p: Program, gate: Gate)
    requires Admit(p).Admitted? && Obeys(gate)
    ensures var s := Run(p, gate, Start()); s.Exited? || s.Aborted?
    ensures var s := Run(p, gate, Start()); s.Exited? ==> s.value < U64
  {
    StartConsistent(p);
    RunNotStuck(p, gate, Start());
    ExitsInRange(p, gate, Start());
  }

  lemma {:induction false} ExitsInRange(p: Program, gate: Gate, k: Config)
    requires Shape(k)
    ensures var s := Run(p, gate, k); s.Exited? ==> s.value < U64
    decreases |p.insns| - k.pc
  {
    var s := Step(p, gate, k);
    if s.Running? { ExitsInRange(p, gate, s.k); }
  }
}
