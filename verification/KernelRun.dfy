/** linux/ownership/cbpf_runtime.c as it runs: the invocation's cells, views, counters and flags,
    the global reference count and the per-CPU slot, updated in place; proved against
    KernelMachine. */
module KernelRun {
  import opened Capabilities
  import opened Common
  import opened KernelMachine
  import opened KernelOwnership
  import T = KernelTrace

  // The permanent provider object's reference count.
  class Provider {
    var refs: int

    constructor (refs: int)
      ensures this.refs == refs
    {
      this.refs := refs;
    }
  }

  // struct cbpf_invocation, with the lines it has printed.
  class Invocation {
    const cells: array<Capability>
    const views: array<Capability>
    var acquired: nat
    var released: nat
    var readCount: nat
    var cleanup: nat
    var sequence: nat
    var entered: bool
    var failed: bool
    var log: seq<Line>

    constructor (K: Kernel)
      ensures fresh(cells) && fresh(views) && cells != views
      ensures forall refs :: Of(refs) == Fresh(K, refs)
    {
      cells := new Capability[K.cells](_ => NULL);
      views := new Capability[K.cells](_ => NULL);
      acquired, released, readCount, cleanup, sequence := 0, 0, 0, 0, 0;
      entered, failed, log := false, false, [];
    }

    ghost function Of(refs: int): Session
      reads this, cells, views
    {
      Session(cells[..], views[..], acquired, released, readCount, cleanup, sequence, entered, failed, refs, log)
    }

    ghost function With(o: Provider): Session
      reads this, cells, views, o
    {
      Of(o.refs)
    }

    method PrintLine(o: Provider, kind: TraceKind, pc: nat, id: nat)
      modifies this
      ensures With(o) == Trace(old(With(o)), kind, pc, id)
    {
      sequence := (sequence + 1) % U32;
      log := log + [Line(sequence, kind, pc, id, acquired, released, readCount, cleanup, o.refs, Tags(cells[..]))];
    }

    method Reject(o: Provider, pc: nat)
      modifies this
      ensures With(o) == Fail(old(With(o)), pc)
    {
      failed := true;
      PrintLine(o, TraceKind.Reject, pc, 0);
    }

    // The stored authority is cut before the provider's count drops.
    method ConsumeCell(o: Provider, i: nat, pc: nat, byCleanup: bool)
      requires i < cells.Length && cells != views
      modifies this, cells, o
      ensures With(o) == Consume(old(With(o)), i, pc, byCleanup)
    {
      ghost var before := With(o);
      cells[i] := cells[i].(tag := false);
      assert cells[..] == before.cells[i := before.cells[i].(tag := false)];
      PrintLine(o, Clear, pc, i + 1);
      assert With(o) == Cut(before, i, pc);
      hide Trace, Cut;
      o.refs := o.refs - 1;
      released := released + 1;
      if byCleanup { cleanup := cleanup + 1; }
      PrintLine(o, if byCleanup then Cleanup else Release, pc, i + 1);
    }

    method Resolve(argument: Capability) returns (i: nat)
      requires acquired <= views.Length
      ensures i == FindView(views[..], argument, 0, acquired)
    {
      i := 0;
      while i < acquired && argument != views[i]
        invariant i <= acquired
        invariant FindView(views[..], argument, 0, acquired) == FindView(views[..], argument, i, acquired)
      {
        i := i + 1;
      }
    }

    method TakeCell(K: Kernel, o: Provider, view: Capability, provider: Capability, pc: nat)
      requires Shape(K, With(o)) && acquired < K.cells && cells != views
      modifies this, cells, views, o
      ensures With(o) == Take(K, old(With(o)), view, provider, pc)
    {
      hide Trace;
      o.refs := o.refs + 1;
      cells[acquired] := provider;
      views[acquired] := view;
      acquired := acquired + 1;
      PrintLine(o, Acquired, pc, acquired);
    }

    method AcquireCell(K: Kernel, o: Provider, argument: Capability, pc: nat) returns (value: Capability)
      requires Shape(K, With(o)) && cells != views
      modifies this, cells, views, o
      ensures Reply(With(o), value) == AcquireGate(K, old(With(o)), argument, pc)
    {
      hide Trace, Fail, Take, Exact;
      if argument.tag || argument.address > 1 {
        Reject(o, pc);
        return FAILURE;
      }
      if argument.address != 0 {
        PrintLine(o, Null, pc, 0);
        return Scalar(0);
      }
      if acquired == cells.Length {
        Reject(o, pc);
        return FAILURE;
      }
      var view := Exact(K, K.cellAddress(acquired), K.cellBytes);
      var provider := Exact(K, K.objectAddress, K.objectBytes);
      if !view.tag || !provider.tag {
        Reject(o, pc);
        return FAILURE;
      }
      TakeCell(K, o, view, provider, pc);
      return view;
    }

    method UseCell(K: Kernel, o: Provider, argument: Capability, operation: nat, pc: nat)
      returns (value: Capability)
      requires Shape(K, With(o)) && cells != views
      modifies this, cells, o
      ensures Reply(With(o), value) == UseGate(K, old(With(o)), argument, operation, pc)
    {
      hide Trace, Fail, Consume;
      var i := Resolve(argument);
      if i == acquired || !cells[i].tag {
        Reject(o, pc);
        return FAILURE;
      }
      if operation == 2 {
        readCount := (readCount + 1) % U32;
        PrintLine(o, Read, pc, i + 1);
        return Scalar(Widen(K.value));
      }
      ConsumeCell(o, i, pc, false);
      return Scalar(0);
    }
  }

  // The per-CPU slot.
  class Cpu {
    var active: Invocation?

    constructor ()
      ensures active == null
    {
      active := null;
    }

    ghost function Frame(): set<object>
      reads this
    {
      if active == null then {} else {active, active.cells, active.views}
    }
  }

  // cbpf_gate_impl. Without an active invocation it reports failure and changes nothing.
  method GateImpl(K: Kernel, cpu: Cpu, o: Provider, argument: Capability, operation: nat, pc: nat)
    returns (value: Capability)
    requires cpu.active != null ==> Shape(K, cpu.active.With(o)) && cpu.active.cells != cpu.active.views
    modifies cpu.Frame(), o
    ensures cpu.active == old(cpu.active)
    ensures cpu.active == null ==> value == FAILURE && o.refs == old(o.refs)
    ensures cpu.active != null ==>
      Reply(cpu.active.With(o), value) == Gate(K, old(cpu.active.With(o)), argument, operation, pc)
  {
    hide Fail, AcquireGate, UseGate;
    var s := cpu.active;
    if s == null { return FAILURE; }
    if !s.entered || s.failed {
      s.Reject(o, pc);
      return FAILURE;
    }
    if operation == 1 {
      value := s.AcquireCell(K, o, argument, pc);
      return;
    }
    if operation != 2 && operation != 3 {
      s.Reject(o, pc);
      return FAILURE;
    }
    value := s.UseCell(K, o, argument, operation, pc);
  }

  // bpf_prog_run: entries and gate calls, in the order the program makes them.
  method RunProgram(K: Kernel, cpu: Cpu, o: Provider, calls: seq<Call>)
    requires cpu.active != null && Shape(K, cpu.active.With(o)) && cpu.active.cells != cpu.active.views
    modifies cpu.Frame(), o
    ensures cpu.active == old(cpu.active)
    ensures cpu.active.With(o) == PerformAll(K, old(cpu.active.With(o)), calls)
  {
    hide Gate, Shape;
    var i, s := 0, cpu.active;
    ghost var start := s.With(o);
    while i < |calls|
      invariant i <= |calls| && cpu.active == s && Shape(K, s.With(o))
      invariant PerformAll(K, s.With(o), calls[i..]) == PerformAll(K, start, calls)
    {
      ghost var before := s.With(o);
      assert calls[i..][1..] == calls[i + 1..];
      match calls[i] {
        case Enter(accepted) =>
          if !s.entered && !s.failed && accepted { s.entered := true; }
        case Gated(argument, operation, pc) =>
          var _ := GateImpl(K, cpu, o, argument, operation, pc);
      }
      assert s.With(o) == Perform(K, before, calls[i]);
      i := i + 1;
    }
  }

  method CleanupCells(K: Kernel, s: Invocation, o: Provider)
    requires Shape(K, s.With(o)) && s.cells != s.views
    modifies s, s.cells, o
    ensures s.With(o) == CleanupAll(K, old(s.With(o)), 0)
  {
    hide Consume;
    ghost var final := CleanupAll(K, s.With(o), 0);
    var i := 0;
    while i < s.acquired
      invariant i <= s.acquired && Shape(K, s.With(o)) && CleanupAll(K, s.With(o), i) == final
    {
      ghost var before := s.With(o);
      ConsumeKeeps(K, before, i);
      if s.cells[i].tag { s.ConsumeCell(o, i, U64 - 1, true); }
      i := i + 1;
    }
  }

  lemma ConsumeKeeps(K: Kernel, s: Session, i: nat)
    requires Shape(K, s) && i < s.acquired
    ensures Shape(K, Consume(s, i, U64 - 1, true)) && Consume(s, i, U64 - 1, true).acquired == s.acquired
  {
  }

  method Scrub(K: Kernel, s: Invocation)
    requires s.cells.Length == s.views.Length == K.cells && s.cells != s.views
    modifies s.cells, s.views
    ensures s.cells[..] == s.views[..] == seq(K.cells, _ => NULL)
  {
    for i := 0 to s.cells.Length
      invariant forall j :: 0 <= j < i ==> s.cells[j] == s.views[j] == NULL
    {
      s.cells[i] := NULL;
      s.views[i] := NULL;
    }
  }

  // cbpf_test_invoke. The wrapper refuses a nested or ungated program; otherwise it runs the
  // program in a private invocation, and always leaves the slot empty and the count as it was.
  method TestInvoke(K: Kernel, cpu: Cpu, o: Provider, gated: bool, calls: seq<Call>, result: nat)
    returns (value: nat, log: seq<Line>)
    requires Sane(K)
    modifies cpu, o
    ensures cpu.active == old(cpu.active) && o.refs == old(o.refs)
    ensures old(cpu.active) != null || !gated ==> value == 0 && log == []
    ensures old(cpu.active) == null && gated ==>
      var (s, r) := Invoke(K, old(o.refs), calls, result); value == r && log == s.log
    ensures old(cpu.active) == null && gated ==>
      exists entered, failed :: T.Ends(log, entered, failed) && value == if failed then 0 else result
  {
    if cpu.active != null || !gated { return 0, []; }
    hide PerformAll, CleanupAll, Trace, Shape, Fresh;
    ghost var base := o.refs;
    InvokeBalances(K, base, calls, result);
    var _, _ := T.InvokePrints(K, base, calls, result);
    var s := new Invocation(K);
    cpu.active := s;
    RunProgram(K, cpu, o, calls);
    CleanupCells(K, s, o);
    if !s.entered || s.acquired != s.released { s.failed := true; }
    s.PrintLine(o, if s.failed then Failed else Exit, U64 - 1, 0);
    log := s.log;
    value := if s.failed then 0 else result;
    ghost var ended := s.With(o);
    ScrubShape(K, ended);
    Scrub(K, s);
    assert s.With(o) == Invoke(K, base, calls, result).0;
    cpu.active := null;
  }

  lemma ScrubShape(K: Kernel, s: Session)
    ensures Shape(K, s) ==> |s.cells| == |s.views| == K.cells
  {
  }
}
