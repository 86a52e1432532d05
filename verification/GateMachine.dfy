/** The trusted-gate machine of src/gate.c as a function: handles are capabilities (or host
    pointers) resolved by exact comparison with a table of prepared views. */
module GateMachine {
  import opened Capabilities
  import opened Common
  import opened HostMachine

  // A host pointer has an address only.
  type Handle = Capability

  // One build and one machine: cell i lies at address(i), and raw(i) is whatever bounding
  // and restricting a capability to that cell produces.
  datatype Platform = Platform(
    purecap: bool,
    address: nat -> nat,
    raw: nat -> Handle,
    publicPerms: nat,
    cellBytes: nat,
    handleBytes: nat)

  // Distinct cells, none at the null address.
  ghost predicate Sane(P: Platform, cells: nat)
  {
    && (forall i, j {:trigger P.address(i), P.address(j)} :: 0 <= i < j < cells ==> P.address(i) != P.address(j))
    && (forall i {:trigger P.address(i)} :: 0 <= i < cells ==> P.address(i) != 0)
  }

  // prepare_view: inspect the capability before publishing it.
  function PrepareView(P: Platform, i: nat): Option<Handle>
  {
    if P.purecap then
      var v := P.raw(i);
      if !v.tag || v.sealed || v.address != P.address(i) || v.base != P.address(i)
         || v.length != P.cellBytes || v.perms != P.publicPerms then None
      else Some(v)
    else Some(Capability(false, false, P.address(i), 0, 0, 0))
  }

  // The one value a published view of cell i can have.
  function View(P: Platform, i: nat): Handle
  {
    if P.purecap then Exactly(P.address(i), P.cellBytes, P.publicPerms)
    else Capability(false, false, P.address(i), 0, 0, 0)
  }

  // Preparation either fails or publishes exactly the canonical view.
  lemma PreparedIsView(P: Platform, i: nat)
    ensures PrepareView(P, i).Some? ==> PrepareView(P, i).value == View(P, i)
    ensures PrepareView(P, i).Some? <==> !P.purecap || P.raw(i) == View(P, i)
  {
  }

  lemma ViewsDistinct(P: Platform, cells: nat, i: nat, j: nat)
    requires Sane(P, cells) && i < cells && j < cells
    ensures View(P, i) != NULL && (View(P, i) == View(P, j) <==> i == j)
  {
    var a, b := P.address(i), P.address(j);
  }

  // The object pointer stored in a cell; on purecap a consumed one keeps its bits untagged.
  datatype Stored = Nothing | Tagged | Cleared

  datatype Metrics = Metrics(
    acquisitions: nat,
    readAttempts: nat,
    releases: nat,
    cleanups: nat,
    restricted: nat,
    tagClears: nat,
    cellBytes: nat,
    handleBytes: nat,
    purecap: bool,
    representationErrors: nat)

  datatype GateOutcome = GateOk | GateNull | GateStale | GateExhausted | GateRepresentation

  datatype Gate = Gate(
    regs: seq<Handle>,
    spills: seq<Handle>,
    cells: seq<Stored>,
    views: seq<Handle>,
    references: int,
    r: Result,
    m: Metrics)

  predicate GateShape(L: Limits, g: Gate)
  {
    && |g.regs| == L.regs && |g.spills| == L.spills && |g.cells| == |g.views| == L.cells
    && |g.r.explicitBy| == |g.r.cleanupBy| == L.cells && g.r.acquired <= L.cells
  }

  function NoMetrics(P: Platform): Metrics
  {
    Metrics(0, 0, 0, 0, 0, 0, P.cellBytes, P.handleBytes, P.purecap, 0)
  }

  function GateInitial(P: Platform, L: Limits): (g: Gate)
    ensures GateShape(L, g)
  {
    Gate(seq(L.regs, _ => NULL), seq(L.spills, _ => NULL), seq(L.cells, _ => Nothing), seq(L.cells, _ => NULL),
         1, EmptyResult(L), NoMetrics(P))
  }

  // identify: the token a handle stands for, or None if it was never published.
  function Identify(views: seq<Handle>, h: Handle, acquired: nat): (token: Option<nat>)
    requires acquired <= |views|
    ensures token.Some? ==> token.value <= acquired
  {
    if h == NULL then Some(0)
    else
      var k := FindView(views, h, 0, acquired);
      if k < acquired then Some(k + 1) else None
  }

  // The state after an operation, its outcome and the token it reports.
  datatype Answer = Answer(g: Gate, outcome: GateOutcome, token: nat)

  function TakeView(P: Platform, g: Gate, dst: nat, view: Handle): Gate
    requires g.r.acquired < |g.cells| && g.r.acquired < |g.views| && dst < |g.regs|
  {
    var i := g.r.acquired;
    g.(cells := g.cells[i := Tagged],
       references := g.references + 1,
       views := g.views[i := view],
       regs := g.regs[dst := view],
       r := g.r.(refs := g.references + 1, acquired := i + 1),
       m := g.m.(restricted := g.m.restricted + (if P.purecap then 1 else 0)))
  }

  function AcquireView(P: Platform, L: Limits, g: Gate, x: Insn): (a: Answer)
    requires GateShape(L, g) && x.dst < L.regs
    ensures GateShape(L, a.g)
  {
    var counted := g.(m := g.m.(acquisitions := g.m.acquisitions + 1));
    if x.imm == 0 then Answer(counted.(regs := g.regs[x.dst := NULL]), GateOk, 0)
    else if g.r.acquired == L.cells then Answer(counted, GateExhausted, 0)
    else
      var view := PrepareView(P, g.r.acquired);
      if view.None? then Answer(counted, GateRepresentation, 0)
      else Answer(TakeView(P, counted, x.dst, view.value), GateOk, g.r.acquired + 1)
  }

  function MoveView(L: Limits, g: Gate, x: Insn): (a: Answer)
    requires GateShape(L, g) && (x.op.Copy? || x.op.Spill? || x.op.Reload?)
    requires x.dst < (if x.op.Spill? then L.spills else L.regs)
    requires x.src < (if x.op.Reload? then L.spills else L.regs)
    ensures GateShape(L, a.g)
  {
    var h := if x.op.Reload? then g.spills[x.src] else g.regs[x.src];
    var g' := if x.op.Spill? then g.(spills := g.spills[x.dst := h]) else g.(regs := g.regs[x.dst := h]);
    var token := Identify(g.views, h, g.r.acquired);
    if token.None? then Answer(g', GateRepresentation, 0) else Answer(g', GateOk, token.value)
  }

  // The stored authority goes first, then the provider's reference.
  function Invalidate(P: Platform, g: Gate, i: nat): Gate
    requires i < |g.cells|
  {
    g.(cells := g.cells[i := if P.purecap then Cleared else Nothing],
       references := g.references - 1,
       r := g.r.(refs := g.references - 1),
       m := g.m.(tagClears := g.m.tagClears + (if P.purecap then 1 else 0)))
  }

  // Each release is counted once, as the program's or as cleanup's.
  function CountedRelease(g: Gate, i: nat, cleanup: bool): Gate
    requires i < |g.r.explicitBy| && i < |g.r.cleanupBy|
  {
    var r := g.r;
    if cleanup then
      g.(r := r.(cleanupReleases := r.cleanupReleases + 1, cleanupBy := r.cleanupBy[i := r.cleanupBy[i] + 1]),
         m := g.m.(cleanups := g.m.cleanups + 1))
    else
      g.(r := r.(explicitReleases := r.explicitReleases + 1, explicitBy := r.explicitBy[i := r.explicitBy[i] + 1]))
  }

  // consume.
  function Consume(P: Platform, g: Gate, i: nat, cleanup: bool): Gate
    requires i < |g.cells| && i < |g.r.explicitBy| && i < |g.r.cleanupBy|
  {
    if g.cells[i].Tagged? then CountedRelease(Invalidate(P, g, i), i, cleanup) else g
  }

  function UseView(P: Platform, L: Limits, g: Gate, x: Insn): (a: Answer)
    requires GateShape(L, g) && x.dst < L.regs
    ensures GateShape(L, a.g)
  {
    var counted := if x.op.Read? then g.(m := g.m.(readAttempts := g.m.readAttempts + 1))
                   else g.(m := g.m.(releases := g.m.releases + 1));
    var token := Identify(g.views, g.regs[x.dst], g.r.acquired);
    if token.None? then Answer(counted, GateRepresentation, 0)
    else if token.value == 0 then Answer(counted, GateNull, 0)
    else if !g.cells[token.value - 1].Tagged? then Answer(counted, GateStale, token.value)
    else if x.op.Read? then
      Answer(counted.(r := g.r.(lastRead := 42, readCount := g.r.readCount + 1)), GateOk, token.value)
    else Answer(Consume(P, counted, token.value - 1, false), GateOk, token.value)
  }

  datatype GateStep = GateNext(g: Gate, pc: nat) | GateHalt(g: Gate)

  // What the loop does with an operation's outcome.
  function Settle(a: Answer, x: Insn, next: nat): GateStep
  {
    match a.outcome
    case GateOk => GateNext(a.g.(r := Log(a.g.r, StepEvent, x.op, a.token)), next)
    case GateRepresentation =>
      GateHalt(a.g.(m := a.g.m.(representationErrors := a.g.m.representationErrors + 1),
                    r := a.g.r.(status := Invalid)))
    case _ =>
      var trap := if a.outcome.GateNull? then NullTrap
                  else if a.outcome.GateStale? then StaleTrap else ExhaustedTrap;
      GateHalt(a.g.(r := Log(a.g.r.(status := Trapped, trap := trap), TrapEvent, x.op, a.token)))
  }

  function Advance(P: Platform, L: Limits, p: seq<Insn>, before: Gate, pc: nat): (o: GateStep)
    requires GateShape(L, before) && pc < |p| && Wellformed(L, |p|, pc, p[pc])
    ensures GateShape(L, o.g)
    ensures o.GateNext? ==> pc < o.pc && !p[pc].op.Return? && (o.pc == pc + 1 || o.pc < |p|)
  {
    var x := p[pc];
    var g := before.(r := before.r.(pc := pc));
    match x.op
    case Acquire => Settle(AcquireView(P, L, g, x), x, pc + 1)
    case Copy => Settle(MoveView(L, g, x), x, pc + 1)
    case Spill => Settle(MoveView(L, g, x), x, pc + 1)
    case Reload => Settle(MoveView(L, g, x), x, pc + 1)
    case Read => Settle(UseView(P, L, g, x), x, pc + 1)
    case Release => Settle(UseView(P, L, g, x), x, pc + 1)
    case BrNull =>
      var token := Identify(g.views, g.regs[x.dst], g.r.acquired);
      if token.None? then Settle(Answer(g, GateRepresentation, 0), x, pc + 1)
      else Settle(Answer(g, GateOk, token.value), x, if token.value == 0 then x.imm else pc + 1)
    case Return => GateHalt(g.(r := Log(g.r.(returned := x.imm, status := Returned), StepEvent, x.op, 0)))
    case Unknown => GateHalt(g.(r := g.r.(status := Invalid)))
  }

  function GateExec(P: Platform, L: Limits, p: seq<Insn>, g: Gate, pc: nat): (final: Gate)
    requires Valid(L, p) && GateShape(L, g) && pc < |p|
    ensures GateShape(L, final)
    decreases |p| - pc
  {
    match Advance(P, L, p, g, pc)
    case GateNext(g', pc') => GateExec(P, L, p, g', pc')
    case GateHalt(g') => g'
  }

  function GateCleanup(P: Platform, L: Limits, g: Gate, i: nat): (final: Gate)
    requires GateShape(L, g)
    ensures GateShape(L, final)
    decreases g.r.acquired - i
  {
    if i >= g.r.acquired then g
    else
      var g' := Consume(P, g, i, true);
      var logged := if g.cells[i].Tagged? then g'.(r := Log(g'.r, CleanupEvent, Release, i + 1)) else g';
      GateCleanup(P, L, logged, i + 1)
  }

  // cbpf_gate_run.
  function GateRun(P: Platform, L: Limits, p: seq<Insn>): (Result, Metrics)
  {
    if !Valid(L, p) then (EmptyResult(L).(status := Invalid, pc := Blamed(L, p).value), NoMetrics(P))
    else
      var g := GateCleanup(P, L, GateExec(P, L, p, GateInitial(P, L), 0), 0);
      (g.r, g.m)
  }
}
