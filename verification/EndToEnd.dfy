/** From the invocation wrapper to the BPF program and back: cbpf_test_invoke of a compiled
    program returns the program's scalar, truncated to 32 bits, or zero; and it always leaves the
    provider balanced. */
module EndToEnd {
  import opened Capabilities
  import opened Common
  import B = Bpf
  import A = Admission
  import opened AdmissionFixpoint
  import E = Emission
  import N = NativeMachine
  import C = CompilerCorrect
  import BC = BodyCorrect
  import S = AdmissionSound
  import O = AllOnes
  import KC = KernelCallbacks
  import KR = KernelRefinement
  import R = Refinement
  import M = OwnershipModel
  import opened KernelMachine
  import opened KernelOwnership
  import opened KernelProgram

  // The wrapper's view of a run: entry, then the machine's gate calls in order.
  function Listed(calls: seq<B.GateCall>): (l: seq<Call>)
    ensures |l| == |calls|
  {
    seq(|calls|, i requires 0 <= i < |calls| => Gated(calls[i].argument, calls[i].operation, calls[i].pc))
  }

  function Made(entered: bool, calls: seq<B.GateCall>): seq<Call>
  {
    [Enter(entered)] + Listed(calls)
  }

  lemma {:induction false} PerformPush(K: Kernel, s: Session, calls: seq<Call>, call: Call)
    requires Shape(K, s)
    ensures PerformAll(K, s, calls + [call]) == Perform(K, PerformAll(K, s, calls), call)
    decreases |calls|
  {
    hide Perform;
    if calls == [] {
      assert ([] + [call])[1..] == [];
    } else {
      assert (calls + [call])[1..] == calls[1..] + [call];
      PerformPush(K, Perform(K, s, calls[0]), calls[1..], call);
    }
  }

  lemma {:induction false} MadeReachesAfter(K: Kernel, base: int, calls: seq<B.GateCall>)
    ensures PerformAll(K, Fresh(K, base), Made(true, calls)) == After(K, base, calls)
    decreases |calls|
  {
    hide Gate;
    if calls == [] {
      assert Made(true, calls) == [] + [Enter(true)];
      PerformPush(K, Fresh(K, base), [], Enter(true));
    } else {
      var rest, last := calls[..|calls| - 1], calls[|calls| - 1];
      assert Made(true, calls) == Made(true, rest) + [Gated(last.argument, last.operation, last.pc)];
      PerformPush(K, Fresh(K, base), Made(true, rest), Gated(last.argument, last.operation, last.pc));
      MadeReachesAfter(K, base, rest);
    }
  }

  lemma NeverEntered(K: Kernel, base: int)
    ensures PerformAll(K, Fresh(K, base), Made(false, [])) == Fresh(K, base)
  {
    assert Made(false, [])[1..] == [];
  }

  // ---- When the failure signal is unambiguous ----

  // Without a first cell there is no acquisition, so no handle ever to read through.
  lemma {:induction false} NothingAcquired(K: Kernel, base: int, calls: seq<B.GateCall>)
    requires !Buildable(K, 0)
    ensures After(K, base, calls).acquired == 0
    decreases |calls|
  {
    hide Buildable, Gate;
    if calls != [] {
      var last := calls[|calls| - 1];
      NothingAcquired(K, base, calls[..|calls| - 1]);
      NothingToAcquire(K, After(K, base, calls[..|calls| - 1]), last.argument, last.operation, last.pc);
    }
  }

  lemma NothingToAcquire(K: Kernel, s: Session, argument: Capability, operation: nat, pc: nat)
    requires Shape(K, s) && s.acquired == 0 && !Buildable(K, 0)
    ensures var r := Gate(K, s, argument, operation, pc);
      r.s.acquired == 0 && (!r.s.failed ==> r.value == Scalar(0))
  {
    ExactMeans(K, K.cellAddress(0), K.cellBytes);
    ExactMeans(K, K.objectAddress, K.objectBytes);
  }

  // No value of the kernel gate reads as a failure if the object does not hold -1, or if there
  // is nothing to read it through.
  lemma KernelSignals(K: Kernel, base: int)
    requires Sane(K)
    ensures B.Obeys(KernelGate(K, base))
    ensures K.value != -1 || !Buildable(K, 0) ==> BC.Signals(KernelGate(K, base))
  {
    KernelGateObeys(K, base);
    hide Sane, Gate, Buildable, B.Obeys;
    if K.value == -1 && !Buildable(K, 0) {
      forall calls: seq<B.GateCall> | KernelGate(K, base)(calls).Value?
        ensures KernelGate(K, base)(calls).c.address != U64 - 1
      {
        var rest, last := calls[..|calls| - 1], calls[|calls| - 1];
        NothingAcquired(K, base, rest);
        NothingToAcquire(K, After(K, base, rest), last.argument, last.operation, last.pc);
      }
    }
  }

  // Otherwise the first acquisition and a read of it produce the all-ones value.
  lemma KernelReadsAllOnes(K: Kernel, base: int)
    requires Sane(K) && K.cells > 0 && K.value == -1 && Buildable(K, 0)
    ensures O.ReadsAllOnes(KernelGate(K, base), View(K, 0))
  {
    var acquire, read := B.GateCall(B.ACQUIRE, 1, Scalar(0)), B.GateCall(B.READ, 4, View(K, 0));
    assert O.ACQUIRED == [] + [acquire];
    WidenSigned(-1);
    var address := K.cellAddress(0);
    var s := Entered(K, base);
    AfterSound(K, base, []);
    AfterPush(K, base, [], acquire);
    AfterPush(K, base, O.ACQUIRED, read);
    hide Sane, Gate, After, Answer, Sound, Buildable, Widen;
    assert After(K, base, []) == s by { EmptyAfter(K, base); }
    KC.AcquireExactly(K, base, s, 1);
    TakeKeeps(K, s, 1);
    var t := Take(K, s, View(K, 0), Object(K), 1);
    TakenFirst(K, s);
    AfterSound(K, base, O.ACQUIRED);
    UseExactly(K, base, t, View(K, 0), B.READ, 4, 0);
  }

  lemma EmptyAfter(K: Kernel, base: int)
    ensures After(K, base, []) == Entered(K, base) && !Entered(K, base).failed
    ensures Entered(K, base).entered && Entered(K, base).acquired == 0
  {
  }

  lemma TakenFirst(K: Kernel, s: Session)
    requires Shape(K, s) && s.acquired == 0 < K.cells
    ensures var t := Take(K, s, View(K, 0), Object(K), 1);
      t.cells[0].tag && t.acquired == 1 && t.entered == s.entered && t.failed == s.failed
  {
  }

  // Exactly when compiled runs are the programs' own runs, for this gate: a condition on the
  // machine that can be checked before any program is loaded.
  lemma UnambiguousExactly(K: Kernel, base: int)
    requires Sane(K) && K.cells >= 2
    ensures K.value != -1 || !Buildable(K, 0) <==>
      forall p {:trigger A.Admit(p)} :: A.Admit(p).Admitted? ==>
        B.Run(p, C.Heard(KernelGate(K, base)), B.Start()) == B.Run(p, KernelGate(K, base), B.Start())
  {
    var gate := KernelGate(K, base);
    hide Sane, Buildable, KernelGate, B.Run, C.Heard, A.Admit, BC.Signals, O.ReadsAllOnes;
    KernelSignals(K, base);
    if K.value != -1 || !Buildable(K, 0) {
      forall p: B.Program ensures B.Run(p, C.Heard(gate), B.Start()) == B.Run(p, gate, B.Start()) {
        C.SignalsQuiet(p, gate, B.Start());
        C.HeardExactly(p, gate, B.Start());
      }
    } else {
      KernelReadsAllOnes(K, base);
      O.AllOnesIsLost(gate, View(K, 0));
      assert A.Admit(O.Reader()).Admitted?;
    }
  }

  // ---- The wrapper, the image and the program ----

  // The session when the compiled function returns: failed exactly if entry was refused, or the
  // gate itself refused the last call. A read of all ones ends the run without failing it.
  lemma SessionAtReturn(K: Kernel, base: int, p: B.Program, entered: bool)
    requires Sane(K) && K.cells >= 2 && A.Admit(p).Admitted?
    ensures var (gate, heard) := (KernelGate(K, base), B.Run(p, C.Heard(KernelGate(K, base)), B.Start()));
      var s := PerformAll(K, Fresh(K, base), Made(entered, if entered then heard.calls else []));
      && (s.entered <==> entered)
      && (s.failed <==> entered && heard.Aborted? && gate(heard.calls).Refused?)
  {
    hide A.Admit, B.Run, After, PerformAll, Made, Sane, C.Heard, Gate;
    var gate := KernelGate(K, base);
    var heard := B.Run(p, C.Heard(gate), B.Start());
    if entered {
      MadeReachesAfter(K, base, heard.calls);
      AfterSound(K, base, heard.calls);
      if heard.Aborted? {
        C.AbortsLater(p, C.Heard(gate), B.Start());
        LastAnswer(K, base, heard.calls);
      } else {
        HeardEnds(K, base, p);
        C.HeardExits(p, gate, B.Start());
        AdmissionDischarges(K, base, p);
      }
    } else {
      NeverEntered(K, base);
    }
  }

  lemma LastAnswer(K: Kernel, base: int, calls: seq<B.GateCall>)
    requires calls != []
    ensures After(K, base, calls).failed <==> KernelGate(K, base)(calls).Refused?
  {
    hide Gate;
  }

  // A run on the gate as heard ends by its exit or by a refusal.
  lemma HeardEnds(K: Kernel, base: int, p: B.Program)
    requires Sane(K) && A.Admit(p).Admitted?
    ensures var s := B.Run(p, C.Heard(KernelGate(K, base)), B.Start()); s.Exited? || s.Aborted?
  {
    hide Sane, A.Admit, KernelGate, B.Run, B.Obeys, C.Heard, BC.Signals;
    KernelSignals(K, base);
    C.HeardGate(KernelGate(K, base));
    S.AdmissionIsSound(p, C.Heard(KernelGate(K, base)));
  }

  // An admitted program, its image and the wrapper: for every kernel, every caller state and
  // every build, the image returns, and the wrapper reports the scalar of the run as the gateway
  // hears it, or zero, with each acquisition released and the count at its baseline.
  lemma InvokeComputes(K: Kernel, base: int, build: E.Build, p: B.Program, env: N.Env, m: N.Machine)
    returns (n: nat, y: N.Machine)
    requires Sane(K) && K.cells >= 2 && env.gate == KernelGate(K, base)
    requires A.Admit(p).Admitted? && |p.insns| <= E.MAX_INSNS
    requires C.Integers(m.c) && m.pc == 0 && m.executive && m.calls == []
    requires build.cookie < U64 && build.enter < U64 && env.enter == build.enter
    ensures Formed(p) && var o := N.Steps(E.Image(build, p), env, m, n);
      && o.Returned? && o.m == y
      && y.calls == (if C.Enters(env, build, m) then B.Run(p, C.Heard(env.gate), B.Start()).calls else [])
      && var (s, r) := Invoke(K, base, Made(C.Enters(env, build, m), y.calls), o.value % U32);
         var heard := B.Run(p, C.Heard(env.gate), B.Start());
      && s.refs == base && s.acquired == s.released
      && (s.failed <==> !C.Enters(env, build, m) || (heard.Aborted? && env.gate(heard.calls).Refused?))
      && r == (if C.Enters(env, build, m) && heard.Exited? then heard.value % U32 else 0)
  {
    hide Sane, KernelGate, A.Admit, Formed, E.Image, N.Steps, B.Run, C.Restored, Invoke, C.Enters, PerformAll, Made,
      BC.Signals, B.Obeys, C.Heard;
    KernelSignals(K, base);
    n, y := C.CompilerIsCorrect(build, p, env, m);
    var heard := env.(gate := C.Heard(env.gate));
    SameEntry(env, build, m);
    SessionAtReturn(K, base, p, C.Enters(env, build, m));
    InvokeBalances(K, base, Made(C.Enters(env, build, m), y.calls), C.Result(p, build, heard, m) % U32);
  }

  lemma SameEntry(env: N.Env, build: E.Build, m: N.Machine)
    requires C.Integers(m.c)
    ensures C.Enters(env.(gate := C.Heard(env.gate)), build, m) <==> C.Enters(env, build, m)
  {
  }

  // With an unambiguous signal the wrapper reports the program's own run.
  lemma InvokeReturnsProgram(K: Kernel, base: int, build: E.Build, p: B.Program, env: N.Env, m: N.Machine)
    returns (n: nat, y: N.Machine)
    requires Sane(K) && K.cells >= 2 && (K.value != -1 || !Buildable(K, 0)) && env.gate == KernelGate(K, base)
    requires A.Admit(p).Admitted? && |p.insns| <= E.MAX_INSNS
    requires C.Integers(m.c) && m.pc == 0 && m.executive && m.calls == []
    requires build.cookie < U64 && build.enter < U64 && env.enter == build.enter
    ensures Formed(p) && var o := N.Steps(E.Image(build, p), env, m, n);
      && o.Returned? && o.m == y
      && var (s, r) := Invoke(K, base, Made(C.Enters(env, build, m), y.calls), o.value % U32);
         var run := B.Run(p, env.gate, B.Start());
      && s.refs == base && s.acquired == s.released
      && (s.failed <==> !C.Enters(env, build, m) || run.Aborted?)
      && r == (if C.Enters(env, build, m) && run.Exited? then run.value % U32 else 0)
  {
    hide Sane, KernelGate, A.Admit, Formed, E.Image, N.Steps, B.Run, C.Enters, Invoke, Made, C.Heard, Buildable,
      EndsWell;
    UnambiguousExactly(K, base);
    n, y := InvokeComputes(K, base, build, p, env, m);
    assert B.Run(p, C.Heard(env.gate), B.Start()) == B.Run(p, env.gate, B.Start());
    AbortRefused(K, base, p);
  }

  lemma AbortRefused(K: Kernel, base: int, p: B.Program)
    requires Sane(K) && K.cells >= 2 && A.Admit(p).Admitted?
    ensures var run := B.Run(p, KernelGate(K, base), B.Start());
      run.Aborted? ==> KernelGate(K, base)(run.calls).Refused?
  {
    hide Sane, B.Run, A.Admit, After, Refuses;
    AdmissionDischarges(K, base, p);
    var run := B.Run(p, KernelGate(K, base), B.Start());
    if run.Aborted? { LastAnswer(K, base, run.calls); }
  }

  // From the image down to the ownership machine: an invocation whose entry is accepted is a
  // path of it, and the session the wrapper ends with has that path's effects.
  lemma InvokeRefines(K: Kernel, base: int, build: E.Build, p: B.Program, env: N.Env, m: N.Machine)
    returns (n: nat, y: N.Machine, path: seq<M.Edge>)
    requires Sane(K) && K.cells >= 2 && env.gate == KernelGate(K, base)
    requires A.Admit(p).Admitted? && |p.insns| <= E.MAX_INSNS
    requires C.Integers(m.c) && m.pc == 0 && m.executive && m.calls == [] && C.Enters(env, build, m)
    requires build.cookie < U64 && build.enter < U64 && env.enter == build.enter
    ensures Formed(p) && var o := N.Steps(E.Image(build, p), env, m, n);
      && o.Returned? && o.m == y
      && var run := B.Run(p, C.Heard(env.gate), B.Start());
      && Invoke(K, base, Made(true, y.calls), o.value % U32).0 == Finish(K, After(K, base, run.calls))
      && R.Follows(M.Initial(10, 1), path, K.cells)
      && KR.Asked(path) == KR.Labelled(env.gate, KR.Edges(env.gate, run))
      && KR.Concludes(K, base, run, R.Last(M.Initial(10, 1), path))
  {
    hide Sane, KernelGate, A.Admit, Formed, E.Image, N.Steps, B.Run, C.Enters, Made, C.Heard, Finish, PerformAll, After,
      R.Follows, R.Last, KR.Asked, KR.Labelled, KR.Edges, KR.Concludes;
    n, y := InvokeComputes(K, base, build, p, env, m);
    MadeReachesAfter(K, base, y.calls);
    path := KR.KernelRefines(K, base, p, C.Heard(env.gate));
  }
}
