/** The kernel gate of linux/ownership/cbpf_runtime.c as a function: one invocation's private
    cells and public views, the three operations, sticky failure and the trace they print. */
module KernelMachine {
  import opened Capabilities
  import opened Common

  const U32 := 0x1_0000_0000

  // CBPF_FAILURE: all address bits set.
  const FAILURE: Capability := Scalar(U64 - 1)

  // One machine: where the cells and the provider object lie, and what bounding and
  // restricting the executive DDC to such a range produces.
  datatype Kernel = Kernel(
    cells: nat,
    cellAddress: nat -> nat,
    cellBytes: nat,
    objectAddress: nat,
    objectBytes: nat,
    perms: nat,
    raw: (nat, nat, nat) -> Capability,
    value: int)

  // Distinct cells in a 64-bit address space, and a C int in the object.
  ghost predicate Sane(K: Kernel)
  {
    && (forall i, j {:trigger K.cellAddress(i), K.cellAddress(j)} :: 0 <= i < j < K.cells ==>
          K.cellAddress(i) != K.cellAddress(j))
    && (forall i {:trigger K.cellAddress(i)} :: 0 <= i < K.cells ==> 0 < K.cellAddress(i) < U64 - 1)
    && -0x8000_0000 <= K.value < 0x8000_0000
  }

  // The public view of cell i, and the provider's object capability.
  function View(K: Kernel, i: nat): Capability
  {
    Exactly(K.cellAddress(i), K.cellBytes, K.perms)
  }

  function Object(K: Kernel): Capability
  {
    Exactly(K.objectAddress, K.objectBytes, K.perms)
  }

  // cbpf_exact: every observable field is checked after construction.
  function Exact(K: Kernel, address: nat, size: nat): Capability
  {
    var cap := K.raw(address, size, K.perms);
    if !cap.tag || cap.sealed || cap.address != address || cap.base != address
       || cap.length != size || cap.perms != K.perms then NULL
    else cap
  }

  // Construction succeeds exactly when the hardware's answer is the requested capability.
  lemma ExactMeans(K: Kernel, address: nat, size: nat)
    ensures Exact(K, address, size).tag <==> K.raw(address, size, K.perms) == Exactly(address, size, K.perms)
    ensures Exact(K, address, size).tag ==> Exact(K, address, size) == Exactly(address, size, K.perms)
  {
  }

  // Both capabilities an acquisition of cell i needs can be built.
  predicate Buildable(K: Kernel, i: nat)
  {
    && K.raw(K.cellAddress(i), K.cellBytes, K.perms) == View(K, i)
    && K.raw(K.objectAddress, K.objectBytes, K.perms) == Object(K)
  }

  datatype TraceKind = Reject | Null | Acquired | Read | Clear | Release | Cleanup | Exit | Failed

  // A CBPF_GATE line.
  datatype Line = Line(
    seqno: nat,
    kind: TraceKind,
    pc: nat,
    id: nat,
    acquired: nat,
    released: nat,
    readCount: nat,
    cleanup: nat,
    refs: int,
    tags: seq<bool>)

  // struct cbpf_invocation, with the provider's reference count and the lines printed so far.
  datatype Session = Session(
    cells: seq<Capability>,
    views: seq<Capability>,
    acquired: nat,
    released: nat,
    readCount: nat,
    cleanup: nat,
    sequence: nat,
    entered: bool,
    failed: bool,
    refs: int,
    log: seq<Line>)

  predicate Shape(K: Kernel, s: Session)
  {
    |s.cells| == |s.views| == K.cells && s.acquired <= K.cells
  }

  function Fresh(K: Kernel, refs: int): (s: Session)
    ensures Shape(K, s)
  {
    Session(seq(K.cells, _ => NULL), seq(K.cells, _ => NULL), 0, 0, 0, 0, 0, false, false, refs, [])
  }

  function Tags(cells: seq<Capability>): (t: seq<bool>)
    ensures |t| == |cells| && forall i :: 0 <= i < |cells| ==> t[i] == cells[i].tag
  {
    seq(|cells|, i requires 0 <= i < |cells| => cells[i].tag)
  }

  // cbpf_trace.
  function Trace(s: Session, kind: TraceKind, pc: nat, id: nat): Session
  {
    var n := (s.sequence + 1) % U32;
    s.(sequence := n,
       log := s.log + [Line(n, kind, pc, id, s.acquired, s.released, s.readCount, s.cleanup, s.refs, Tags(s.cells))])
  }

  // cbpf_fail on a non-null invocation.
  function Fail(s: Session, pc: nat): Session
  {
    Trace(s.(failed := true), Reject, pc, 0)
  }

  // cbpf_consume: the stored authority is cut and traced before the provider's count drops.
  function Cut(s: Session, i: nat, pc: nat): Session
    requires i < |s.cells|
  {
    Trace(s.(cells := s.cells[i := s.cells[i].(tag := false)]), Clear, pc, i + 1)
  }

  function Consume(s: Session, i: nat, pc: nat, cleanup: bool): Session
    requires i < |s.cells|
  {
    var cut := Cut(s, i, pc);
    Trace(cut.(refs := cut.refs - 1,
               released := cut.released + 1,
               cleanup := cut.cleanup + (if cleanup then 1 else 0)),
          if cleanup then Cleanup else Release, pc, i + 1)
  }

  datatype Reply = Reply(s: Session, value: Capability)

  function Rejected(s: Session, pc: nat): Reply
  {
    Reply(Fail(s, pc), FAILURE)
  }

  function Take(K: Kernel, s: Session, view: Capability, provider: Capability, pc: nat): Session
    requires Shape(K, s) && s.acquired < K.cells
  {
    var i := s.acquired;
    Trace(s.(refs := s.refs + 1, cells := s.cells[i := provider], views := s.views[i := view], acquired := i + 1),
          Acquired, pc, i + 1)
  }

  function AcquireGate(K: Kernel, s: Session, argument: Capability, pc: nat): Reply
    requires Shape(K, s)
  {
    if argument.tag || argument.address > 1 then Rejected(s, pc)
    else if argument.address != 0 then Reply(Trace(s, Null, pc, 0), Scalar(0))
    else if s.acquired == K.cells then Rejected(s, pc)
    else
      var view := Exact(K, K.cellAddress(s.acquired), K.cellBytes);
      var provider := Exact(K, K.objectAddress, K.objectBytes);
      if !view.tag || !provider.tag then Rejected(s, pc)
      else Reply(Take(K, s, view, provider, pc), view)
  }

  function UseGate(K: Kernel, s: Session, argument: Capability, operation: nat, pc: nat): Reply
    requires Shape(K, s)
  {
    var i := FindView(s.views, argument, 0, s.acquired);
    if i == s.acquired || !s.cells[i].tag then Rejected(s, pc)
    else if operation == 2 then
      Reply(Trace(s.(readCount := (s.readCount + 1) % U32), Read, pc, i + 1), Scalar(Widen(K.value)))
    else Reply(Consume(s, i, pc, false), Scalar(0))
  }

  // cbpf_gate_impl with an active invocation.
  function Gate(K: Kernel, s: Session, argument: Capability, operation: nat, pc: nat): Reply
    requires Shape(K, s)
  {
    if !s.entered || s.failed then Rejected(s, pc)
    else if operation == 1 then AcquireGate(K, s, argument, pc)
    else if operation != 2 && operation != 3 then Rejected(s, pc)
    else UseGate(K, s, argument, operation, pc)
  }

  // What a program run does to its invocation: protected entry, when accepted, and gate calls.
  datatype Call = Enter(accepted: bool) | Gated(argument: Capability, operation: nat, pc: nat)

  function Perform(K: Kernel, s: Session, call: Call): (s': Session)
    requires Shape(K, s)
    ensures Shape(K, s')
  {
    match call
    case Enter(accepted) => if s.entered || s.failed || !accepted then s else s.(entered := true)
    case Gated(argument, operation, pc) => Gate(K, s, argument, operation, pc).s
  }

  function PerformAll(K: Kernel, s: Session, calls: seq<Call>): (s': Session)
    requires Shape(K, s)
    ensures Shape(K, s')
    decreases |calls|
  {
    if calls == [] then s else PerformAll(K, Perform(K, s, calls[0]), calls[1..])
  }

  // The wrapper's loop over the acquired cells.
  function CleanupAll(K: Kernel, s: Session, i: nat): (s': Session)
    requires Shape(K, s)
    ensures Shape(K, s') && s'.acquired == s.acquired
    decreases s.acquired - i
  {
    if i >= s.acquired then s
    else CleanupAll(K, if s.cells[i].tag then Consume(s, i, U64 - 1, true) else s, i + 1)
  }

  // cbpf_test_invoke after the program has run: cleanup, the balance check, the scrub.
  function Finish(K: Kernel, s: Session): (s': Session)
    requires Shape(K, s)
    ensures Shape(K, s')
  {
    var c := CleanupAll(K, s, 0);
    var d := if !c.entered || c.acquired != c.released then c.(failed := true) else c;
    var e := Trace(d, if d.failed then Failed else Exit, U64 - 1, 0);
    e.(cells := seq(K.cells, _ => NULL), views := seq(K.cells, _ => NULL))
  }

  // The session the wrapper ends with, and the value it returns.
  function Invoke(K: Kernel, refs: int, calls: seq<Call>, result: nat): (Session, nat)
  {
    var s := Finish(K, PerformAll(K, Fresh(K, refs), calls));
    (s, if s.failed then 0 else result)
  }
}
