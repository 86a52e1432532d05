/** One increasing pass is a fixed point, and the least one: the flow table admission ends with
    is closed under every transfer and lies below every other closed annotation. */
module AdmissionFixpoint {
  import opened Common
  import opened Bpf
  import opened Admission

  // ---- The order on annotations ----

  predicate KindLeq(a: Kind, b: Kind)
  {
    (a.uninit ==> b.uninit) && (a.zero ==> b.zero) && (a.scalar ==> b.scalar) && (a.handle ==> b.handle)
  }

  ghost predicate Leq(a: Point, b: Point)
  {
    a.reached ==> b.reached && KindLeq(a.spill, b.spill) && forall r :: 0 <= r < 10 ==> KindLeq(a.reg[r], b.reg[r])
  }

  ghost predicate Below(a: seq<Point>, b: seq<Point>)
  {
    |a| == |b| && forall i :: 0 <= i < |a| ==> Leq(a[i], b[i])
  }

  lemma LeqTransitive(a: Point, b: Point, c: Point)
    requires Leq(a, b) && Leq(b, c)
    ensures Leq(a, c)
  {
  }

  // Join is the least upper bound.
  lemma JoinIsLub(d: Point, s: Point, bound: Point)
    requires s.reached
    ensures Leq(d, Join(d, s)) && Leq(s, Join(d, s))
    ensures Leq(d, bound) && Leq(s, bound) ==> Leq(Join(d, s), bound)
  {
    if d.reached {
      var j := Join(d, s);
      assert forall r :: 0 <= r < 10 ==> j.reg[r] == JoinKind(d.reg[r], s.reg[r]);
    }
  }

  // ---- Closure ----

  // Control flow is forward and stays inside, and every operand index is in range.
  predicate Formed(p: Program)
  {
    forall pc :: 0 <= pc < |p.insns| ==>
      Sized(p.insns[pc]) && (p.insns[pc].code.Jeq? ==> 0 < p.insns[pc].off < |p.insns| - pc - 1)
  }

  ghost predicate ClosedAt(p: Program, pc: nat, s: Point, ann: seq<Point>)
    requires pc < |p.insns| && |ann| == |p.insns| + 1 && Sized(p.insns[pc])
    requires p.insns[pc].code.Jeq? ==> 0 < p.insns[pc].off < |p.insns| - pc - 1
  {
    var x := p.insns[pc];
    var out := Transfer(p, x, s);
    && (out.falls.Some? ==> Leq(out.falls.value, ann[pc + 1]))
    && (out.taken.Some? ==> x.code.Jeq? && Leq(out.taken.value, ann[pc + 1 + x.off]))
  }

  // Every reached entry's transfers lie below the entries they lead to.
  ghost predicate Closed(p: Program, ann: seq<Point>)
    requires Formed(p) && |ann| == |p.insns| + 1
  {
    forall pc :: 0 <= pc < |p.insns| && ann[pc].reached ==> ClosedAt(p, pc, ann[pc], ann)
  }

  lemma TransferMonotone(p: Program, x: Insn, a: Point, b: Point)
    requires Sized(x) && a.reached && Leq(a, b)
    ensures var m, n := Transfer(p, x, a), Transfer(p, x, b);
      && (m.falls.Some? ==> n.falls.Some? && Leq(m.falls.value, n.falls.value))
      && (m.taken.Some? ==> n.taken.Some? && Leq(m.taken.value, n.taken.value))
  {
  }

  lemma CheckForms(p: Program, pc: nat, s: Point, acquisitions: nat)
    requires pc < |p.insns| && Check(p, pc, s, acquisitions).None?
    ensures var x := p.insns[pc];
      s.reached && Sized(x) && (x.code.Jeq? ==> 0 < x.off < |p.insns| - pc - 1)
  {
  }

  // Passing on only raises entries, makes this one closed, and stays below a closed annotation.
  lemma PropagateCloses(p: Program, flow: seq<Point>, pc: nat)
    requires pc < |p.insns| && |flow| == |p.insns| + 1 && Check(p, pc, flow[pc], 0).None?
    requires Sized(p.insns[pc]) && (p.insns[pc].code.Jeq? ==> 0 < p.insns[pc].off < |p.insns| - pc - 1)
    ensures Below(flow, Propagate(p, flow, pc))
    ensures ClosedAt(p, pc, flow[pc], Propagate(p, flow, pc))
  {
    CheckForms(p, pc, flow[pc], 0);
    hide Leq, Join, Check;
    var x := p.insns[pc];
    var out := Transfer(p, x, flow[pc]);
    forall a: Point ensures Leq(a, a) { LeqReflexive(a); }
    if out.falls.Some? { JoinIsLub(flow[pc + 1], out.falls.value, out.falls.value); }
    if out.taken.Some? { JoinIsLub(flow[pc + 1 + x.off], out.taken.value, out.taken.value); }
  }

  lemma LeqReflexive(a: Point)
    ensures Leq(a, a)
  {
  }

  lemma PropagateBelow(p: Program, flow: seq<Point>, pc: nat, ann: seq<Point>)
    requires pc < |p.insns| && |flow| == |p.insns| + 1 && Check(p, pc, flow[pc], 0).None?
    requires Formed(p) && Below(flow, ann) && Closed(p, ann)
    ensures Below(Propagate(p, flow, pc), ann)
  {
    var x := p.insns[pc];
    assert Leq(flow[pc], ann[pc]) && ann[pc].reached && ClosedAt(p, pc, ann[pc], ann);
    CheckForms(p, pc, flow[pc], 0);
    hide Leq, Join, Check, Formed;
    TransferMonotone(p, x, flow[pc], ann[pc]);
    var m, n := Transfer(p, x, flow[pc]), Transfer(p, x, ann[pc]);
    if m.falls.Some? {
      LeqTransitive(m.falls.value, n.falls.value, ann[pc + 1]);
      JoinIsLub(flow[pc + 1], m.falls.value, ann[pc + 1]);
    }
    if m.taken.Some? {
      var t := pc + 1 + x.off;
      LeqTransitive(m.taken.value, n.taken.value, ann[t]);
      JoinIsLub(flow[t], m.taken.value, ann[t]);
    }
  }

  // Entries below pc are done: nothing later changes them, and raising the rest keeps them closed.
  lemma ClosedRises(p: Program, i: nat, flow: seq<Point>, higher: seq<Point>)
    requires i < |p.insns| && |flow| == |p.insns| + 1 && Below(flow, higher) && Sized(p.insns[i])
    requires p.insns[i].code.Jeq? ==> 0 < p.insns[i].off < |p.insns| - i - 1
    requires ClosedAt(p, i, flow[i], flow) && higher[i] == flow[i]
    ensures ClosedAt(p, i, higher[i], higher)
  {
    var x := p.insns[i];
    var out := Transfer(p, x, flow[i]);
    hide Leq, Transfer;
    if out.falls.Some? { LeqTransitive(out.falls.value, flow[i + 1], higher[i + 1]); }
    if out.taken.Some? { LeqTransitive(out.taken.value, flow[i + 1 + x.off], higher[i + 1 + x.off]); }
  }

  // What the entry of an already processed instruction satisfies.
  ghost predicate Processed(p: Program, flow: seq<Point>, i: nat)
    requires i < |p.insns| && |flow| == |p.insns| + 1
  {
    var x := p.insns[i];
    && flow[i].reached && Check(p, i, flow[i], 0).None?
    && Sized(x) && (x.code.Jeq? ==> 0 < x.off < |p.insns| - i - 1)
    && ClosedAt(p, i, flow[i], flow)
  }

  lemma PropagateProcessed(p: Program, flow: seq<Point>, pc: nat)
    requires pc < |p.insns| && |flow| == |p.insns| + 1 && Check(p, pc, flow[pc], 0).None?
    requires forall i :: 0 <= i < pc ==> Processed(p, flow, i)
    ensures forall i :: 0 <= i <= pc ==> Processed(p, Propagate(p, flow, pc), i)
  {
    CheckForms(p, pc, flow[pc], 0);
    PropagateCloses(p, flow, pc);
    var f := Propagate(p, flow, pc);
    hide Propagate, ClosedAt, Below, Check;
    forall i | 0 <= i <= pc ensures Processed(p, f, i) {
      if i < pc {
        assert Processed(p, flow, i);
        ClosedRises(p, i, flow, f);
      }
    }
  }

  lemma {:induction false} AdmitCloses(p: Program, flow: seq<Point>, pc: nat, acquisitions: nat, hasExit: bool,
                                       final: seq<Point>)
    requires |flow| == |p.insns| + 1 && pc <= |p.insns|
    requires forall i :: 0 <= i < pc ==> Processed(p, flow, i)
    requires AdmitFrom(p, flow, pc, acquisitions, hasExit) == Admitted(final)
    ensures |final| == |flow| && forall i :: 0 <= i < |p.insns| ==> Processed(p, final, i)
    decreases |p.insns| - pc
  {
    hide Processed, Check, Propagate;
    if pc < |p.insns| {
      CheckCount(p, pc, flow[pc], acquisitions);
      PropagateProcessed(p, flow, pc);
      AdmitCloses(p, Propagate(p, flow, pc), pc + 1, acquisitions + IsAcquire(p, p.insns[pc]),
                  hasExit || p.insns[pc].code.Exit?, final);
    }
  }

  lemma {:induction false} AdmitLeast(p: Program, flow: seq<Point>, pc: nat, acquisitions: nat, hasExit: bool,
                                      ann: seq<Point>)
    requires |flow| == |p.insns| + 1 && pc <= |p.insns| && Formed(p) && Below(flow, ann) && Closed(p, ann)
    ensures var v := AdmitFrom(p, flow, pc, acquisitions, hasExit); v.Admitted? ==> Below(v.flow, ann)
    decreases |p.insns| - pc
  {
    hide Below, Closed, Check, Propagate, Formed;
    if pc < |p.insns| && Check(p, pc, flow[pc], acquisitions).None? {
      CheckCount(p, pc, flow[pc], acquisitions);
      PropagateBelow(p, flow, pc, ann);
      AdmitLeast(p, Propagate(p, flow, pc), pc + 1, acquisitions + IsAcquire(p, p.insns[pc]),
                 hasExit || p.insns[pc].code.Exit?, ann);
    }
  }

  // Acceptance means: every instruction is reached, passes its checks against the final table,
  // and hands on only kinds that the table already contains.
  lemma AdmittedIsClosed(p: Program)
    requires Admit(p).Admitted?
    ensures Formed(p) && |Admit(p).flow| == |p.insns| + 1 && Closed(p, Admit(p).flow)
    ensures forall i :: 0 <= i < |p.insns| ==>
      Admit(p).flow[i].reached && Check(p, i, Admit(p).flow[i], 0).None?
  {
    hide Check, ClosedAt, Sized, Processed;
    var flow := Admit(p).flow;
    AdmitCloses(p, EntryFlow(|p.insns|), 0, 0, false, flow);
    forall i | 0 <= i < |p.insns|
      ensures flow[i].reached && Check(p, i, flow[i], 0).None? && Sized(p.insns[i])
      ensures p.insns[i].code.Jeq? ==> 0 < p.insns[i].off < |p.insns| - i - 1
    {
      ProcessedMeans(p, flow, i);
    }
    forall i | 0 <= i < |p.insns| ensures ClosedAt(p, i, flow[i], flow) {
      ProcessedMeans(p, flow, i);
    }
  }

  lemma ProcessedMeans(p: Program, flow: seq<Point>, i: nat)
    requires i < |p.insns| && |flow| == |p.insns| + 1 && Processed(p, flow, i)
    ensures flow[i].reached && Check(p, i, flow[i], 0).None? && Sized(p.insns[i])
    ensures p.insns[i].code.Jeq? ==> 0 < p.insns[i].off < |p.insns| - i - 1
    ensures ClosedAt(p, i, flow[i], flow)
  {
  }

  // The table is the least closed annotation that contains the entry state.
  lemma AdmittedIsLeast(p: Program, ann: seq<Point>)
    requires Admit(p).Admitted? && Formed(p) && |ann| == |p.insns| + 1
    requires Closed(p, ann) && Leq(Entry(), ann[0])
    ensures Below(Admit(p).flow, ann)
  {
    var flow := EntryFlow(|p.insns|);
    forall i | 0 <= i < |flow| ensures Leq(flow[i], ann[i]) {
    }
    AdmitLeast(p, flow, 0, 0, false, ann);
  }

  // ---- The count of acquisitions ----

  // Acquisition sites from pc on.
  function Sites(p: Program, pc: nat): nat
    requires pc <= |p.insns|
    decreases |p.insns| - pc
  {
    if pc == |p.insns| then 0 else IsAcquire(p, p.insns[pc]) + Sites(p, pc + 1)
  }

  lemma CheckLimits(p: Program, pc: nat, s: Point, acquisitions: nat)
    requires pc < |p.insns| && Check(p, pc, s, acquisitions).None? && acquisitions <= 2
    ensures acquisitions + IsAcquire(p, p.insns[pc]) <= 2
  {
  }

  lemma {:induction false} AdmitCounts(p: Program, flow: seq<Point>, pc: nat, acquisitions: nat, hasExit: bool)
    requires |flow| == |p.insns| + 1 && pc <= |p.insns| && acquisitions <= 2
    ensures AdmitFrom(p, flow, pc, acquisitions, hasExit).Admitted? ==>
      && 1 <= acquisitions + Sites(p, pc) <= 2
      && (hasExit || exists i :: pc <= i < |p.insns| && p.insns[i].code.Exit?)
    decreases |p.insns| - pc
  {
    hide Check, Propagate, IsAcquire;
    if pc < |p.insns| && Check(p, pc, flow[pc], acquisitions).None? {
      CheckCount(p, pc, flow[pc], acquisitions);
      CheckLimits(p, pc, flow[pc], acquisitions);
      AdmitCounts(p, Propagate(p, flow, pc), pc + 1, acquisitions + IsAcquire(p, p.insns[pc]),
                  hasExit || p.insns[pc].code.Exit?);
    }
  }

  // An accepted program has one or two acquisition sites and an exit, and cannot run off its end.
  lemma AdmittedCounts(p: Program)
    requires Admit(p).Admitted?
    ensures 1 <= Sites(p, 0) <= 2 && |p.insns| > 0
    ensures exists i :: 0 <= i < |p.insns| && p.insns[i].code.Exit?
  {
    AdmitCounts(p, EntryFlow(|p.insns|), 0, 0, false);
  }

  // ---- The exact verdict ----

  // The least closed annotation that contains the entry state.
  ghost predicate Least(p: Program, flow: seq<Point>)
    requires Formed(p)
  {
    && |flow| == |p.insns| + 1 && Closed(p, flow) && Leq(Entry(), flow[0])
    && forall ann: seq<Point> {:trigger Closed(p, ann)} ::
         |ann| == |p.insns| + 1 && Closed(p, ann) && Leq(Entry(), ann[0]) ==> Below(flow, ann)
  }

  // What a reader of the grammar would ask of a program and its least annotation.
  ghost predicate Acceptable(p: Program, flow: seq<Point>)
  {
    && Formed(p) && Least(p, flow) && !flow[|p.insns|].reached
    && (forall i :: 0 <= i < |p.insns| ==> flow[i].reached && Check(p, i, flow[i], 0).None?)
    && 1 <= Sites(p, 0) <= 2
    && exists i :: 0 <= i < |p.insns| && p.insns[i].code.Exit?
  }

  // Every state: nothing lies above it.
  function Top(): (t: Point)
    ensures t.reached
  {
    Flow(seq(10, _ => Kind(true, true, true, true)), Kind(true, true, true, true), true)
  }

  lemma TopIsTop(a: Point)
    ensures Leq(a, Top())
  {
  }

  // The entries up to pc are final: with everything after them unknown they are already closed.
  function Padded(f: seq<Point>, pc: nat): (ann: seq<Point>)
    requires pc < |f|
    ensures |ann| == |f|
    ensures forall i :: 0 <= i < |f| ==> ann[i] == if i <= pc then f[i] else Top()
  {
    f[..pc + 1] + seq(|f| - pc - 1, _ => Top())
  }

  lemma PaddedClosed(p: Program, f: seq<Point>, pc: nat)
    requires Formed(p) && |f| == |p.insns| + 1 && pc < |p.insns|
    requires forall i :: 0 <= i < pc ==> Processed(p, f, i)
    ensures Closed(p, Padded(f, pc))
  {
    var ann := Padded(f, pc);
    hide Leq, Transfer, Check;
    forall i | 0 <= i < |p.insns| && ann[i].reached ensures ClosedAt(p, i, ann[i], ann) {
      var out := Transfer(p, p.insns[i], ann[i]);
      if i < pc { assert Processed(p, f, i); }
      if out.falls.Some? { TopIsTop(out.falls.value); }
      if out.taken.Some? { TopIsTop(out.taken.value); }
    }
  }

  lemma LeqBoth(a: Point, b: Point)
    requires Leq(a, b) && Leq(b, a) && a.reached
    ensures a == b
  {
    assert forall r :: 0 <= r < 10 ==> a.reg[r] == b.reg[r];
    assert a.reg == b.reg;
  }

  // So when the pass arrives at pc, its entry is the least annotation's.
  lemma EntryIsFinal(p: Program, f: seq<Point>, pc: nat, least: seq<Point>)
    requires Formed(p) && Least(p, least) && |f| == |p.insns| + 1 && pc < |p.insns| && Below(f, least)
    requires f[0] == Entry() && least[pc].reached && forall i :: 0 <= i < pc ==> Processed(p, f, i)
    ensures f[pc] == least[pc]
  {
    PaddedClosed(p, f, pc);
    LeqReflexive(Entry());
    var ann := Padded(f, pc);
    hide Processed, Leq, Closed, Formed;
    assert Below(least, ann);
    LeqReached(least[pc], ann[pc]);
    LeqBoth(f[pc], least[pc]);
  }

  lemma LeqReached(a: Point, b: Point)
    requires Leq(a, b) && a.reached
    ensures b.reached
  {
  }

  lemma CheckAt(p: Program, pc: nat, s: Point, acquisitions: nat)
    requires pc < |p.insns| && Check(p, pc, s, 0).None? && acquisitions + Sites(p, pc) <= 2
    ensures Check(p, pc, s, acquisitions).None?
  {
  }

  lemma {:induction false} AdmitFollows(p: Program, f: seq<Point>, pc: nat, acquisitions: nat, hasExit: bool,
                                        least: seq<Point>)
    requires Acceptable(p, least) && |f| == |p.insns| + 1 && pc <= |p.insns| && Below(f, least) && f[0] == Entry()
    requires forall i :: 0 <= i < pc ==> Processed(p, f, i)
    requires acquisitions + Sites(p, pc) == Sites(p, 0)
    requires hasExit <==> exists i :: 0 <= i < pc && p.insns[i].code.Exit?
    ensures AdmitFrom(p, f, pc, acquisitions, hasExit).Admitted?
    decreases |p.insns| - pc
  {
    hide Leq, Closed, Check, Propagate, IsAcquire, Processed, ClosedAt, Formed;
    if pc < |p.insns| {
      EntryIsFinal(p, f, pc, least);
      CheckAt(p, pc, f[pc], acquisitions);
      PropagateProcessed(p, f, pc);
      PropagateBelow(p, f, pc, least);
      AdmitFollows(p, Propagate(p, f, pc), pc + 1, acquisitions + IsAcquire(p, p.insns[pc]),
                   hasExit || p.insns[pc].code.Exit?, least);
    } else {
      assert Leq(f[pc], least[pc]);
      if f[pc].reached { LeqReached(f[pc], least[pc]); }
    }
  }

  lemma EntryBelow(p: Program, ann: seq<Point>)
    requires |ann| == |p.insns| + 1 && Leq(Entry(), ann[0])
    ensures Below(EntryFlow(|p.insns|), ann)
  {
  }

  // Admission accepts a program exactly if its least closed annotation reaches every
  // instruction, passes every check there and does not run off the end, with one or two
  // acquisition sites and an exit.
  lemma AdmittedExactly(p: Program)
    ensures Admit(p).Admitted? <==> exists flow :: Acceptable(p, flow)
  {
    if Admit(p).Admitted? {
      AdmittedAcceptable(p);
    }
    if flow :| Acceptable(p, flow) {
      EntryBelow(p, flow);
      hide Check, Leq, Closed;
      AdmitFollows(p, EntryFlow(|p.insns|), 0, 0, false, flow);
    }
  }

  lemma AdmittedAcceptable(p: Program)
    requires Admit(p).Admitted?
    ensures Acceptable(p, Admit(p).flow)
  {
    AdmittedIsClosed(p);
    AdmittedCounts(p);
    AdmittedEnds(p);
    LeqReflexive(Entry());
    hide Admit, Closed, Leq, Below, Check, Formed;
    var flow := Admit(p).flow;
    forall ann: seq<Point> | |ann| == |p.insns| + 1 && Closed(p, ann) && Leq(Entry(), ann[0])
      ensures Below(flow, ann)
    {
      AdmittedIsLeast(p, ann);
    }
  }

  // Nothing is passed past the last instruction.
  lemma AdmittedEnds(p: Program)
    requires Admit(p).Admitted?
    ensures |Admit(p).flow| == |p.insns| + 1 && Admit(p).flow[0] == Entry()
    ensures !Admit(p).flow[|p.insns|].reached
  {
    AdmitEnds(p, EntryFlow(|p.insns|), 0, 0, false, Admit(p).flow);
  }

  lemma {:induction false} AdmitEnds(p: Program, flow: seq<Point>, pc: nat, acquisitions: nat, hasExit: bool,
                                     final: seq<Point>)
    requires |flow| == |p.insns| + 1 && pc <= |p.insns|
    requires AdmitFrom(p, flow, pc, acquisitions, hasExit) == Admitted(final)
    ensures |final| == |p.insns| + 1 && !final[|p.insns|].reached
    decreases |p.insns| - pc
  {
    hide Check, Propagate;
    if pc < |p.insns| {
      CheckCount(p, pc, flow[pc], acquisitions);
      AdmitEnds(p, Propagate(p, flow, pc), pc + 1, acquisitions + IsAcquire(p, p.insns[pc]),
                hasExit || p.insns[pc].code.Exit?, final);
    }
  }
}
