/** src/gate.c as it runs: cells, views and metrics updated in place by the gate operations,
    proved against GateMachine. */
module GateRun {
  import opened Capabilities
  import opened Common
  import opened HostMachine
  import opened HostRun
  import opened GateMachine

  // struct cbpf_gate_metrics.
  class MetricsBox {
    var acquisitions: nat
    var readAttempts: nat
    var releases: nat
    var cleanups: nat
    var restricted: nat
    var tagClears: nat
    var cellBytes: nat
    var handleBytes: nat
    var purecap: bool
    var representationErrors: nat

    constructor ()
    {
      acquisitions, readAttempts, releases, cleanups, restricted := 0, 0, 0, 0, 0;
      tagClears, cellBytes, handleBytes, purecap, representationErrors := 0, 0, 0, false, 0;
    }

    ghost function View(): Metrics
      reads this
    {
      Metrics(acquisitions, readAttempts, releases, cleanups, restricted, tagClears,
              cellBytes, handleBytes, purecap, representationErrors)
    }

    method Clear(P: Platform)
      modifies this
      ensures View() == NoMetrics(P)
    {
      acquisitions, readAttempts, releases, cleanups, restricted := 0, 0, 0, 0, 0;
      tagClears, representationErrors := 0, 0;
      cellBytes, handleBytes, purecap := P.cellBytes, P.handleBytes, P.purecap;
    }
  }

  // struct gate_state together with the interpreter's registers and spill slots.
  class GateState {
    var references: int
    const cells: array<Stored>
    const views: array<Handle>
    const regs: array<Handle>
    const spills: array<Handle>

    constructor (P: Platform, L: Limits)
      ensures fresh(cells) && fresh(views) && fresh(regs) && fresh(spills)
      ensures views != regs && views != spills && regs != spills
      ensures references == 1
      ensures var g := GateInitial(P, L);
        cells[..] == g.cells && views[..] == g.views && regs[..] == g.regs && spills[..] == g.spills
    {
      references := 1;
      cells := new Stored[L.cells](_ => Nothing);
      views := new Handle[L.cells](_ => NULL);
      regs := new Handle[L.regs](_ => NULL);
      spills := new Handle[L.spills](_ => NULL);
    }

    ghost function With(r: RunResult, m: MetricsBox): Gate
      requires r.eventCount <= r.events.Length
      reads this, cells, views, regs, spills, r, r.explicitBy, r.cleanupBy, r.events, m
    {
      Gate(regs[..], spills[..], cells[..], views[..], references, r.View(), m.View())
    }
  }

  ghost predicate Ready(L: Limits, s: GateState, r: RunResult, m: MetricsBox)
    reads s, s.cells, s.views, s.regs, s.spills, r, r.explicitBy, r.cleanupBy, r.events, m
  {
    && r.Fits(L) && s.views != s.regs && s.views != s.spills && s.regs != s.spills
    && r.eventCount <= r.events.Length && GateShape(L, s.With(r, m))
  }

  // Trusted table membership: an index loop over the published views.
  method IdentifyHandle(s: GateState, h: Handle, acquired: nat) returns (found: bool, token: nat)
    requires acquired <= s.views.Length
    ensures Identify(s.views[..], h, acquired) == if found then Some(token) else None
    ensures !found ==> token == 0
  {
    if h == NULL { return true, 0; }
    for i := 0 to acquired
      invariant FindView(s.views[..], h, 0, acquired) == FindView(s.views[..], h, i, acquired)
    {
      if h == s.views[i] { return true, i + 1; }
    }
    return false, 0;
  }

  // The effects of a successful acquisition, after its view is prepared.
  method TakeCellView(P: Platform, L: Limits, s: GateState, dst: nat, view: Handle, r: RunResult, m: MetricsBox)
    returns (token: nat)
    requires Ready(L, s, r, m) && r.acquired < L.cells && dst < L.regs
    modifies s, s.cells, s.views, s.regs, r, m
    ensures r.eventCount == old(r.eventCount) && r.pc == old(r.pc) && token == r.acquired == old(r.acquired) + 1
    ensures s.With(r, m) == TakeView(P, old(s.With(r, m)), dst, view)
  {
    Put(s.cells, r.acquired, Tagged);
    s.references := s.references + 1;
    r.refs := s.references;
    Put(s.views, r.acquired, view);
    r.acquired := r.acquired + 1;
    Put(s.regs, dst, view);
    if P.purecap { m.restricted := m.restricted + 1; }
    token := r.acquired;
  }

  method AcquireCell(P: Platform, L: Limits, s: GateState, x: Insn, r: RunResult, m: MetricsBox)
    returns (outcome: GateOutcome, token: nat)
    requires Ready(L, s, r, m) && x.dst < L.regs
    modifies s, s.cells, s.views, s.regs, r, m
    ensures r.eventCount == old(r.eventCount) && r.pc == old(r.pc)
    ensures Answer(s.With(r, m), outcome, token) == AcquireView(P, L, old(s.With(r, m)), x)
  {
    hide Identify, PrepareView, TakeView;
    ghost var before := s.With(r, m);
    ghost var counted := before.(m := before.m.(acquisitions := before.m.acquisitions + 1));
    m.acquisitions := m.acquisitions + 1;
    assert s.With(r, m) == counted;
    outcome, token := GateOk, 0;
    if x.imm == 0 {
      Put(s.regs, x.dst, NULL);
      assert s.With(r, m) == counted.(regs := counted.regs[x.dst := NULL]);
    } else if r.acquired == L.cells {
      outcome := GateExhausted;
    } else {
      var view := PrepareView(P, r.acquired);
      if view.None? {
        outcome := GateRepresentation;
      } else {
        token := TakeCellView(P, L, s, x.dst, view.value, r, m);
        assert s.With(r, m) == TakeView(P, counted, x.dst, view.value);
      }
    }
  }

  // Whose release it was: the program's, or the cleanup loop's.
  method CountRelease(L: Limits, s: GateState, i: nat, cleanup: bool, r: RunResult, m: MetricsBox)
    requires Ready(L, s, r, m) && i < L.cells
    modifies r, r.explicitBy, r.cleanupBy, m
    ensures r.eventCount == old(r.eventCount) && r.pc == old(r.pc)
    ensures s.With(r, m) == CountedRelease(old(s.With(r, m)), i, cleanup)
  {
    if cleanup {
      m.cleanups := m.cleanups + 1;
      r.cleanupReleases := r.cleanupReleases + 1;
      Put(r.cleanupBy, i, r.cleanupBy[i] + 1);
    } else {
      r.explicitReleases := r.explicitReleases + 1;
      Put(r.explicitBy, i, r.explicitBy[i] + 1);
    }
  }

  // Removes a cell's stored authority, then the provider's reference.
  method ConsumeCell(P: Platform, L: Limits, s: GateState, i: nat, cleanup: bool, r: RunResult, m: MetricsBox)
    returns (consumed: bool)
    requires Ready(L, s, r, m) && i < L.cells
    modifies s, s.cells, r, r.explicitBy, r.cleanupBy, m
    ensures r.eventCount == old(r.eventCount) && r.pc == old(r.pc)
    ensures consumed == old(s.cells[i]).Tagged?
    ensures s.With(r, m) == Consume(P, old(s.With(r, m)), i, cleanup)
  {
    hide CountedRelease;
    if !s.cells[i].Tagged? { return false; }
    ghost var before := s.With(r, m);
    Put(s.cells, i, if P.purecap then Cleared else Nothing);
    if P.purecap { m.tagClears := m.tagClears + 1; }
    s.references := s.references - 1;
    r.refs := s.references;
    assert s.With(r, m) == Invalidate(P, before, i);
    CountRelease(L, s, i, cleanup, r, m);
    return true;
  }

  method UseCell(P: Platform, L: Limits, s: GateState, x: Insn, r: RunResult, m: MetricsBox)
    returns (outcome: GateOutcome, token: nat)
    requires Ready(L, s, r, m) && x.dst < L.regs
    modifies s, s.cells, r, r.explicitBy, r.cleanupBy, m
    ensures r.eventCount == old(r.eventCount) && r.pc == old(r.pc)
    ensures Answer(s.With(r, m), outcome, token) == UseView(P, L, old(s.With(r, m)), x)
  {
    hide Identify, Consume;
    if x.op.Read? { m.readAttempts := m.readAttempts + 1; } else { m.releases := m.releases + 1; }
    var found;
    found, token := IdentifyHandle(s, s.regs[x.dst], r.acquired);
    if !found { return GateRepresentation, token; }
    if token == 0 { return GateNull, token; }
    if x.op.Read? {
      if !s.cells[token - 1].Tagged? { return GateStale, token; }
      r.lastRead, r.readCount := 42, r.readCount + 1;
      return GateOk, token;
    }
    ghost var before := s.With(r, m);
    var consumed := ConsumeCell(P, L, s, token - 1, false, r, m);
    if !consumed {
      ConsumeSpent(P, before, token - 1);
      return GateStale, token;
    }
    return GateOk, token;
  }

  lemma ConsumeSpent(P: Platform, g: Gate, i: nat)
    requires i < |g.cells| && i < |g.r.explicitBy| && i < |g.r.cleanupBy| && !g.cells[i].Tagged?
    ensures Consume(P, g, i, false) == g
  {
  }

  method MoveHandle(L: Limits, s: GateState, x: Insn, r: RunResult, m: MetricsBox)
    returns (outcome: GateOutcome, token: nat)
    requires Ready(L, s, r, m) && (x.op.Copy? || x.op.Spill? || x.op.Reload?)
    requires x.dst < (if x.op.Spill? then L.spills else L.regs)
    requires x.src < (if x.op.Reload? then L.spills else L.regs)
    modifies s.regs, s.spills
    ensures Answer(s.With(r, m), outcome, token) == MoveView(L, old(s.With(r, m)), x)
  {
    hide Identify;
    var h := if x.op.Reload? then s.spills[x.src] else s.regs[x.src];
    if x.op.Spill? { Put(s.spills, x.dst, h); } else { Put(s.regs, x.dst, h); }
    var found;
    found, token := IdentifyHandle(s, h, r.acquired);
    outcome := if found then GateOk else GateRepresentation;
  }

  // The end of an iteration: record, trap, or stop on a representation failure.
  method SettleOutcome(L: Limits, s: GateState, x: Insn, pc: nat, r: RunResult, m: MetricsBox,
                       outcome: GateOutcome, token: nat)
    returns (halted: bool)
    requires Ready(L, s, r, m) && r.eventCount < r.events.Length && r.pc == pc
    modifies r, r.events, m
    ensures r.eventCount <= old(r.eventCount) + 1 && r.eventCount <= r.events.Length
    ensures forall next :: var o := Settle(Answer(old(s.With(r, m)), outcome, token), x, next);
      s.With(r, m) == o.g && halted == o.GateHalt? && (o.GateNext? ==> o.pc == next)
  {
    if outcome.GateRepresentation? {
      m.representationErrors := m.representationErrors + 1;
      r.status := Invalid;
      return true;
    }
    if !outcome.GateOk? {
      r.status := Trapped;
      r.trap := if outcome.GateNull? then NullTrap else if outcome.GateStale? then StaleTrap else ExhaustedTrap;
      r.Record(TrapEvent, x.op, pc, token);
      return true;
    }
    r.Record(StepEvent, x.op, pc, token);
    return false;
  }

  // One iteration: the switch on the opcode, then the outcome.
  method StepGate(P: Platform, L: Limits, p: seq<Insn>, s: GateState, r: RunResult, m: MetricsBox, pc: nat)
    returns (halted: bool, next: nat)
    requires Ready(L, s, r, m) && r.eventCount <= pc < |p| <= L.maxInsns && Wellformed(L, |p|, pc, p[pc])
    modifies s, s.cells, s.views, s.regs, s.spills, r, r.explicitBy, r.cleanupBy, r.events, m
    ensures r.eventCount <= old(r.eventCount) + 1 && Ready(L, s, r, m)
    ensures var o := Advance(P, L, p, old(s.With(r, m)), pc);
      s.With(r, m) == o.g && halted == o.GateHalt? && (o.GateNext? ==> next == o.pc)
  {
    hide Identify, AcquireView, MoveView, UseView, Settle;
    var x := p[pc];
    var outcome, token := GateOk, 0;
    next := pc + 1;
    ghost var before := s.With(r, m);
    r.pc := pc;
    assert s.With(r, m) == before.(r := before.r.(pc := pc));
    if x.op.Return? {
      r.returned, r.status := x.imm, Returned;
      r.Record(StepEvent, x.op, pc, 0);
      return true, next;
    }
    if x.op.Acquire? {
      outcome, token := AcquireCell(P, L, s, x, r, m);
    } else if x.op.Copy? || x.op.Spill? || x.op.Reload? {
      outcome, token := MoveHandle(L, s, x, r, m);
    } else if x.op.Read? || x.op.Release? {
      outcome, token := UseCell(P, L, s, x, r, m);
    } else {
      var found;
      found, token := IdentifyHandle(s, s.regs[x.dst], r.acquired);
      if !found { outcome := GateRepresentation; } else if token == 0 { next := x.imm; }
    }
    halted := SettleOutcome(L, s, x, pc, r, m, outcome, token);
    assert GateShape(L, Advance(P, L, p, before, pc).g);
  }

  // The loop after finish: each cell still holding authority is consumed and logged.
  method CleanupGate(P: Platform, L: Limits, s: GateState, r: RunResult, m: MetricsBox)
    requires Ready(L, s, r, m) && r.eventCount <= L.maxInsns
    modifies s, s.cells, r, r.explicitBy, r.cleanupBy, r.events, m
    ensures r.eventCount <= r.events.Length && s.With(r, m) == GateCleanup(P, L, old(s.With(r, m)), 0)
  {
    hide Consume;
    ghost var final := GateCleanup(P, L, s.With(r, m), 0);
    var i := 0;
    while i < r.acquired
      invariant Ready(L, s, r, m) && i <= r.acquired == old(r.acquired) && r.eventCount <= L.maxInsns + i
      invariant GateCleanup(P, L, s.With(r, m), i) == final
    {
      ghost var before := s.With(r, m);
      ConsumeShape(P, L, before, i);
      var consumed := ConsumeCell(P, L, s, i, true, r, m);
      if consumed { r.Record(CleanupEvent, Release, r.pc, i + 1); }
      i := i + 1;
    }
  }

  lemma ConsumeShape(P: Platform, L: Limits, g: Gate, i: nat)
    requires GateShape(L, g) && i < g.r.acquired
    ensures GateShape(L, Consume(P, g, i, true)) && Consume(P, g, i, true).r.acquired == g.r.acquired
  {
  }

  // The loop over pc.
  method InterpretGate(P: Platform, L: Limits, p: seq<Insn>, s: GateState, r: RunResult, m: MetricsBox)
    requires Valid(L, p) && Ready(L, s, r, m) && r.eventCount == 0
    modifies s, s.cells, s.views, s.regs, s.spills, r, r.explicitBy, r.cleanupBy, r.events, m
    ensures r.eventCount <= |p| && Ready(L, s, r, m)
    ensures s.With(r, m) == GateExec(P, L, p, old(s.With(r, m)), 0)
  {
    hide Advance, GateShape;
    var pc := 0;
    ghost var final := GateExec(P, L, p, s.With(r, m), 0);
    while pc < |p|
      invariant pc < |p| && r.eventCount <= pc && Ready(L, s, r, m)
      invariant GateExec(P, L, p, s.With(r, m), pc) == final
    {
      ghost var before := s.With(r, m);
      StaysInside(P, L, p, before, pc);
      var halted, next := StepGate(P, L, p, s, r, m, pc);
      if halted { break; }
      pc := next;
    }
  }

  lemma StaysInside(P: Platform, L: Limits, p: seq<Insn>, g: Gate, pc: nat)
    requires Valid(L, p) && GateShape(L, g) && pc < |p|
    ensures var o := Advance(P, L, p, g, pc); GateShape(L, o.g) && (o.GateNext? ==> pc < o.pc < |p|)
  {
    hide AcquireView, MoveView, UseView, Settle;
  }

  // cbpf_gate_run.
  method Run(P: Platform, L: Limits, p: seq<Insn>, r: RunResult, m: MetricsBox)
    requires r.Fits(L)
    modifies r, r.explicitBy, r.cleanupBy, r.events, m
    ensures r.eventCount <= r.events.Length && (r.View(), m.View()) == GateMachine.GateRun(P, L, p)
  {
    m.Clear(P);
    r.Clear(L);
    var bad := Validate(L, p);
    if bad.Some? {
      BlamesUnique(L, p, bad.value, Blamed(L, p).value);
      r.pc, r.status := bad.value, Invalid;
      return;
    }
    hide GateExec, GateCleanup, Valid;
    var s := new GateState(P, L);
    InterpretGate(P, L, p, s, r, m);
    CleanupGate(P, L, s, r, m);
  }
}
