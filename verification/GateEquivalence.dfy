/** src/gate.c and src/cbpf.c compute the same observations. With every view prepared they
    agree field by field and event by event, for every program; a view that cannot be prepared
    stops the gate before that acquisition has any effect. */
module GateEquivalence {
  import opened Capabilities
  import opened Common
  import opened HostMachine
  import opened HostOwnership
  import opened GateMachine

  // ---- The gate state that a reference configuration stands for ----

  function HandleOf(P: Platform, token: nat): Handle
  {
    if token == 0 then NULL else View(P, token - 1)
  }

  function Handles(P: Platform, tokens: seq<nat>): (h: seq<Handle>)
    ensures |h| == |tokens| && forall i :: 0 <= i < |tokens| ==> h[i] == HandleOf(P, tokens[i])
  {
    seq(|tokens|, i requires 0 <= i < |tokens| => HandleOf(P, tokens[i]))
  }

  // How many non-cleanup events an opcode has: the attempts an observer of the trace counts.
  function Attempts(events: seq<Event>, op: Opcode): nat
  {
    if events == [] then 0
    else
      var k := |events| - 1;
      Attempts(events[..k], op) + (if events[k].op == op && !events[k].kind.CleanupEvent? then 1 else 0)
  }

  // The metrics a result implies; a failed preparation is one attempt without an event.
  function MetricsOf(P: Platform, r: Result, failed: bool): Metrics
  {
    var f := if failed then 1 else 0;
    Metrics(Attempts(r.events, Acquire) + f, Attempts(r.events, Read), Attempts(r.events, Release),
            r.cleanupReleases,
            if P.purecap then r.acquired else 0,
            if P.purecap then r.explicitReleases + r.cleanupReleases else 0,
            P.cellBytes, P.handleBytes, P.purecap, f)
  }

  function StoredOf(P: Platform, acquired: nat, live: seq<bool>, i: nat): Stored
    requires i < |live|
  {
    if i >= acquired then Nothing
    else if live[i] then Tagged
    else if P.purecap then Cleared else Nothing
  }

  // The gate's cells and its table, read off the reference machine's cells.
  function CellsOf(P: Platform, acquired: nat, live: seq<bool>): (cells: seq<Stored>)
    ensures |cells| == |live|
    ensures forall i :: 0 <= i < |live| ==> cells[i] == StoredOf(P, acquired, live, i)
  {
    seq(|live|, i requires 0 <= i < |live| => StoredOf(P, acquired, live, i))
  }

  function ViewsOf(P: Platform, acquired: nat, cells: nat): (views: seq<Handle>)
    ensures |views| == cells
    ensures forall i :: 0 <= i < cells ==> views[i] == if i < acquired then View(P, i) else NULL
  {
    seq(cells, i requires 0 <= i < cells => if i < acquired then View(P, i) else NULL)
  }

  function Lift(P: Platform, L: Limits, c: Config, failed: bool): (g: Gate)
    requires Shape(L, c)
    ensures GateShape(L, g)
  {
    Gate(Handles(P, c.regs), Handles(P, c.spills), CellsOf(P, c.r.acquired, c.live),
         ViewsOf(P, c.r.acquired, L.cells), c.r.refs, c.r, MetricsOf(P, c.r, failed))
  }

  lemma CellsTake(P: Platform, acquired: nat, live: seq<bool>)
    requires acquired < |live|
    ensures CellsOf(P, acquired + 1, live[acquired := true]) == CellsOf(P, acquired, live)[acquired := Tagged]
    ensures ViewsOf(P, acquired + 1, |live|) == ViewsOf(P, acquired, |live|)[acquired := View(P, acquired)]
  {
  }

  // Consuming one live cell: the stored authority goes, and nothing else in the table.
  lemma CellsDrop(P: Platform, acquired: nat, live: seq<bool>, i: nat)
    requires i < acquired <= |live|
    ensures CellsOf(P, acquired, live[i := false])
      == CellsOf(P, acquired, live)[i := if P.purecap then Cleared else Nothing]
  {
  }

  // Exact comparison with the table recovers the token of any handle the program can hold.
  lemma IdentifyRecovers(P: Platform, L: Limits, c: Config, failed: bool, token: nat)
    requires Shape(L, c) && Sane(P, L.cells) && token <= c.r.acquired
    ensures Identify(Lift(P, L, c, failed).views, HandleOf(P, token), c.r.acquired) == Some(token)
  {
    if token > 0 {
      var views := Lift(P, L, c, failed).views;
      ViewsDistinct(P, L.cells, token - 1, token - 1);
      assert views[token - 1] == HandleOf(P, token);
      var k := FindView(views, HandleOf(P, token), 0, c.r.acquired);
      if k < c.r.acquired { ViewsDistinct(P, L.cells, k, token - 1); }
    }
  }

  lemma HandlesUpdate(P: Platform, tokens: seq<nat>, i: nat, token: nat)
    requires i < |tokens|
    ensures Handles(P, tokens[i := token]) == Handles(P, tokens)[i := HandleOf(P, token)]
  {
  }

  lemma AttemptsPush(events: seq<Event>, e: Event, op: Opcode)
    ensures Attempts(events + [e], op) == Attempts(events, op) + (if e.op == op && !e.kind.CleanupEvent? then 1 else 0)
  {
    assert (events + [e])[..|events|] == events;
  }

  lemma LogMetrics(P: Platform, r: Result, kind: EventKind, op: Opcode, token: nat, failed: bool)
    ensures var m, m' := MetricsOf(P, r, failed), MetricsOf(P, Log(r, kind, op, token), failed);
      m' == if kind.CleanupEvent? then m
            else if op.Acquire? then m.(acquisitions := m.acquisitions + 1)
            else if op.Read? then m.(readAttempts := m.readAttempts + 1)
            else if op.Release? then m.(releases := m.releases + 1) else m
  {
    var e := Event(kind, op, r.pc, token, r.refs);
    AttemptsPush(r.events, e, Acquire);
    AttemptsPush(r.events, e, Read);
    AttemptsPush(r.events, e, Release);
  }

  // ---- One instruction ----

  // The instruction would acquire a cell whose view cannot be prepared.
  predicate Unprepared(P: Platform, L: Limits, c: Config, x: Insn)
  {
    x.op.Acquire? && x.imm != 0 && c.r.acquired < L.cells && PrepareView(P, c.r.acquired).None?
  }

  function LiftStep(P: Platform, L: Limits, o: Outcome): GateStep
    requires Shape(L, o.c)
  {
    match o
    case Next(c, pc) => GateNext(Lift(P, L, c, false), pc)
    case Halt(c) => GateHalt(Lift(P, L, c, false))
  }

  // The reference configuration stopped at pc by a failed preparation.
  function Refused(c: Config, pc: nat): Config
  {
    c.(r := c.r.(pc := pc, status := Invalid))
  }

  lemma AcquireLifts(P: Platform, L: Limits, c: Config, x: Insn)
    requires Shape(L, c) && x.op.Acquire? && x.dst < L.regs && !Unprepared(P, L, c, x)
    ensures Shape(L, AcquireStep(L, c, x).c)
    ensures Settle(AcquireView(P, L, Lift(P, L, c, false), x), x, c.r.pc + 1) == LiftStep(P, L, AcquireStep(L, c, x))
  {
    var o, n := AcquireStep(L, c, x), c.r.acquired;
    if x.imm == 0 {
      HandlesUpdate(P, c.regs, x.dst, 0);
      LogMetrics(P, c.r, StepEvent, x.op, 0, false);
    } else if n == L.cells {
      LogMetrics(P, c.r.(status := Trapped, trap := ExhaustedTrap), TrapEvent, x.op, 0, false);
    } else {
      PreparedIsView(P, n);
      HandlesUpdate(P, c.regs, x.dst, n + 1);
      LogMetrics(P, TakeCell(c, x.dst).r, StepEvent, x.op, n + 1, false);
      CellsTake(P, n, c.live);
    }
  }

  lemma MoveLifts(P: Platform, L: Limits, c: Config, x: Insn)
    requires Shape(L, c) && Sane(P, L.cells) && (x.op.Copy? || x.op.Spill? || x.op.Reload?)
    requires x.dst < (if x.op.Spill? then L.spills else L.regs)
    requires x.src < (if x.op.Reload? then L.spills else L.regs)
    ensures Shape(L, MoveStep(L, c, x).c)
    ensures Settle(MoveView(L, Lift(P, L, c, false), x), x, c.r.pc + 1) == LiftStep(P, L, MoveStep(L, c, x))
  {
    var token := if x.op.Reload? then c.spills[x.src] else c.regs[x.src];
    IdentifyRecovers(P, L, c, false, token);
    LogMetrics(P, c.r, StepEvent, x.op, token, false);
    if x.op.Spill? { HandlesUpdate(P, c.spills, x.dst, token); } else { HandlesUpdate(P, c.regs, x.dst, token); }
  }

  lemma ReadLifts(P: Platform, L: Limits, c: Config, x: Insn)
    requires Shape(L, c) && Sane(P, L.cells) && x.op.Read? && x.dst < L.regs
    ensures Shape(L, UseStep(L, c, x).c)
    ensures Settle(UseView(P, L, Lift(P, L, c, false), x), x, c.r.pc + 1) == LiftStep(P, L, UseStep(L, c, x))
  {
    hide Identify, CellsOf, ViewsOf, Handles, Attempts, Sane;
    var token := c.regs[x.dst];
    IdentifyRecovers(P, L, c, false, token);
    if token == 0 {
      LogMetrics(P, c.r.(status := Trapped, trap := NullTrap), TrapEvent, x.op, token, false);
    } else if !c.live[token - 1] {
      LogMetrics(P, c.r.(status := Trapped, trap := StaleTrap), TrapEvent, x.op, token, false);
    } else {
      LogMetrics(P, c.r.(readCount := c.r.readCount + 1, lastRead := 42), StepEvent, x.op, token, false);
    }
  }

  lemma ReleaseTrapLifts(P: Platform, L: Limits, c: Config, x: Insn)
    requires Shape(L, c) && Sane(P, L.cells) && x.op.Release? && x.dst < L.regs
    requires c.regs[x.dst] == 0 || !c.live[c.regs[x.dst] - 1]
    ensures Shape(L, UseStep(L, c, x).c)
    ensures Settle(UseView(P, L, Lift(P, L, c, false), x), x, c.r.pc + 1) == LiftStep(P, L, UseStep(L, c, x))
  {
    hide Identify, CellsOf, ViewsOf, Handles, Attempts, Sane;
    var token := c.regs[x.dst];
    IdentifyRecovers(P, L, c, false, token);
    LogMetrics(P, c.r.(status := Trapped, trap := if token == 0 then NullTrap else StaleTrap),
               TrapEvent, x.op, token, false);
  }

  lemma ReleaseLifts(P: Platform, L: Limits, c: Config, x: Insn)
    requires Shape(L, c) && Sane(P, L.cells) && x.op.Release? && x.dst < L.regs
    requires c.regs[x.dst] != 0 && c.live[c.regs[x.dst] - 1]
    ensures Shape(L, UseStep(L, c, x).c)
    ensures Settle(UseView(P, L, Lift(P, L, c, false), x), x, c.r.pc + 1) == LiftStep(P, L, UseStep(L, c, x))
  {
    hide Identify, CellsOf, ViewsOf, Handles, Attempts, Sane;
    var token := c.regs[x.dst];
    IdentifyRecovers(P, L, c, false, token);
    LogMetrics(P, DropCell(c, token).r, StepEvent, x.op, token, false);
    CellsDrop(P, c.r.acquired, c.live, token - 1);
  }

  lemma UseLifts(P: Platform, L: Limits, c: Config, x: Insn)
    requires Shape(L, c) && Sane(P, L.cells) && (x.op.Read? || x.op.Release?) && x.dst < L.regs
    ensures Shape(L, UseStep(L, c, x).c)
    ensures Settle(UseView(P, L, Lift(P, L, c, false), x), x, c.r.pc + 1) == LiftStep(P, L, UseStep(L, c, x))
  {
    hide Settle, UseView, LiftStep, Lift, Sane;
    if x.op.Read? {
      ReadLifts(P, L, c, x);
    } else if c.regs[x.dst] == 0 || !c.live[c.regs[x.dst] - 1] {
      ReleaseTrapLifts(P, L, c, x);
    } else {
      ReleaseLifts(P, L, c, x);
    }
  }

  // The gate takes the reference machine's step, unless a preparation fails.
  lemma AdvanceLifts(P: Platform, L: Limits, p: seq<Insn>, c: Config, pc: nat)
    requires Shape(L, c) && Sane(P, L.cells) && pc < |p| && Wellformed(L, |p|, pc, p[pc])
    requires !Unprepared(P, L, c, p[pc])
    ensures Advance(P, L, p, Lift(P, L, c, false), pc) == LiftStep(P, L, Step(L, p, c, pc))
  {
    hide CellsOf, ViewsOf, Handles, Attempts, Sane, Settle, AcquireView, MoveView, UseView, LiftStep, Identify, Log,
      AcquireStep, MoveStep, UseStep;
    var x, d := p[pc], c.(r := c.r.(pc := pc));
    assert Lift(P, L, c, false).(r := d.r) == Lift(P, L, d, false);
    if x.op.Acquire? {
      AcquireLifts(P, L, d, x);
    } else if x.op.Copy? || x.op.Spill? || x.op.Reload? {
      MoveLifts(P, L, d, x);
    } else if x.op.Read? || x.op.Release? {
      UseLifts(P, L, d, x);
    } else {
      OtherLifts(P, L, p, d, pc);
    }
  }

  lemma OtherLifts(P: Platform, L: Limits, p: seq<Insn>, c: Config, pc: nat)
    requires Shape(L, c) && Sane(P, L.cells) && pc < |p| && Wellformed(L, |p|, pc, p[pc])
    requires c.r.pc == pc && (p[pc].op.BrNull? || p[pc].op.Return?)
    ensures Advance(P, L, p, Lift(P, L, c, false), pc) == LiftStep(P, L, Step(L, p, c, pc))
  {
    hide CellsOf, ViewsOf, Handles, Attempts, Sane, Identify;
    var x := p[pc];
    if x.op.BrNull? {
      IdentifyRecovers(P, L, c, false, c.regs[x.dst]);
      LogMetrics(P, c.r, StepEvent, x.op, c.regs[x.dst], false);
    } else {
      LogMetrics(P, c.r.(returned := x.imm, status := Returned), StepEvent, x.op, 0, false);
    }
  }

  // A failed preparation changes nothing but the status and the two counters of the attempt.
  lemma AdvanceRefuses(P: Platform, L: Limits, p: seq<Insn>, c: Config, pc: nat)
    requires Shape(L, c) && pc < |p| && Wellformed(L, |p|, pc, p[pc]) && Unprepared(P, L, c, p[pc])
    ensures Shape(L, Refused(c, pc))
    ensures Advance(P, L, p, Lift(P, L, c, false), pc) == GateHalt(Lift(P, L, Refused(c, pc), true))
  {
  }

  // ---- Whole runs ----

  // The reference loop, stopped where the gate is.
  function Stopped(P: Platform, L: Limits, p: seq<Insn>, c: Config, pc: nat): (r: (Config, bool))
    requires Valid(L, p) && Shape(L, c) && pc < |p|
    ensures Shape(L, r.0)
    decreases |p| - pc
  {
    if Unprepared(P, L, c, p[pc]) then (Refused(c, pc), true)
    else
      match Step(L, p, c, pc)
      case Next(c', pc') => Stopped(P, L, p, c', pc')
      case Halt(c') => (c', false)
  }

  lemma {:induction false} GateExecStops(P: Platform, L: Limits, p: seq<Insn>, c: Config, pc: nat)
    requires Valid(L, p) && Shape(L, c) && Sane(P, L.cells) && pc < |p|
    ensures var (f, failed) := Stopped(P, L, p, c, pc);
      GateExec(P, L, p, Lift(P, L, c, false), pc) == Lift(P, L, f, failed)
    decreases |p| - pc
  {
    hide Step, Advance, Lift, Unprepared, Refused, Sane;
    if Unprepared(P, L, c, p[pc]) {
      AdvanceRefuses(P, L, p, c, pc);
    } else {
      AdvanceLifts(P, L, p, c, pc);
      var o := Step(L, p, c, pc);
      if o.Next? { GateExecStops(P, L, p, o.c, o.pc); }
    }
  }

  lemma CleanupCellLifts(P: Platform, L: Limits, c: Config, i: nat, failed: bool)
    requires Shape(L, c) && i < c.r.acquired
    ensures Shape(L, CleanupCell(c, i))
    ensures var g := Lift(P, L, c, failed);
      var g' := Consume(P, g, i, true);
      (if g.cells[i].Tagged? then g'.(r := Log(g'.r, CleanupEvent, Release, i + 1)) else g')
        == Lift(P, L, CleanupCell(c, i), failed)
  {
    hide CellsOf, ViewsOf, Handles, Attempts;
    if c.live[i] {
      var r := c.r.(refs := c.r.refs - 1, cleanupReleases := c.r.cleanupReleases + 1,
                    cleanupBy := c.r.cleanupBy[i := c.r.cleanupBy[i] + 1]);
      LogMetrics(P, r, CleanupEvent, Release, i + 1, failed);
      CellsDrop(P, c.r.acquired, c.live, i);
    }
  }

  lemma {:induction false} CleanupLifts(P: Platform, L: Limits, c: Config, i: nat, failed: bool)
    requires Shape(L, c)
    ensures Shape(L, Cleanup(c, i))
    ensures GateCleanup(P, L, Lift(P, L, c, failed), i) == Lift(P, L, Cleanup(c, i), failed)
    decreases c.r.acquired - i
  {
    if i < c.r.acquired {
      CleanupCellLifts(P, L, c, i, failed);
      assert Lift(P, L, c, failed).r.acquired == c.r.acquired && CleanupCell(c, i).r.acquired == c.r.acquired;
      hide Lift, Consume, CleanupCell;
      CleanupLifts(P, L, CleanupCell(c, i), i + 1, failed);
    }
  }

  lemma GateRunStops(P: Platform, L: Limits, p: seq<Insn>)
    requires Valid(L, p) && Sane(P, L.cells)
    ensures var (f, failed) := Stopped(P, L, p, Initial(L), 0);
      GateRun(P, L, p) == (Cleanup(f, 0).r, MetricsOf(P, Cleanup(f, 0).r, failed))
  {
    InitialLifts(P, L);
    GateExecStops(P, L, p, Initial(L), 0);
    var (f, failed) := Stopped(P, L, p, Initial(L), 0);
    CleanupLifts(P, L, f, 0, failed);
    hide Stopped, GateExec, GateCleanup, Cleanup, Sane, Valid;
  }

  lemma InitialLifts(P: Platform, L: Limits)
    ensures GateInitial(P, L) == Lift(P, L, Initial(L), false)
  {
  }

  // ---- Where the gate stops ----

  // Every step extends the trace, and acquisitions only grow.
  lemma StepExtends(L: Limits, p: seq<Insn>, c: Config, pc: nat)
    requires Shape(L, c) && pc < |p| && Wellformed(L, |p|, pc, p[pc])
    ensures var d := Step(L, p, c, pc).c;
      && c.r.events <= d.r.events && c.r.acquired <= d.r.acquired <= c.r.acquired + 1
      && (d.r.acquired > c.r.acquired ==>
            p[pc].op.Acquire? && p[pc].imm != 0
            && d.r.events == c.r.events + [Event(StepEvent, Acquire, pc, d.r.acquired, d.r.refs)])
  {
  }

  lemma {:induction false} ExecExtends(L: Limits, p: seq<Insn>, c: Config, pc: nat)
    requires Valid(L, p) && Shape(L, c) && pc < |p|
    ensures c.r.events <= Exec(L, p, c, pc).r.events && c.r.acquired <= Exec(L, p, c, pc).r.acquired
    decreases |p| - pc
  {
    hide Step, Shape, Wellformed;
    ExecUnfolds(L, p, c, pc);
    ValidAt(L, p, pc);
    StepExtends(L, p, c, pc);
    var o := Step(L, p, c, pc);
    if o.Next? { ExecExtends(L, p, o.c, o.pc); }
  }

  lemma ValidAt(L: Limits, p: seq<Insn>, pc: nat)
    requires Valid(L, p) && pc < |p|
    ensures Wellformed(L, |p|, pc, p[pc])
  {
  }

  // f is where the reference run c' stood when the preparation of its next cell failed.
  ghost predicate StoppedBefore(P: Platform, p: seq<Insn>, f: Config, full: Result)
  {
    var n := |f.r.events|;
    && f.r.status == Invalid && f.r.trap == NoTrap && f.r.returned == 0
    && PrepareView(P, f.r.acquired).None?
    && f.r.pc < |p| && p[f.r.pc].op.Acquire?
    && f.r.events <= full.events && n < |full.events|
    && full.events[n].kind.StepEvent? && full.events[n].op.Acquire?
    && full.events[n].pc == f.r.pc && full.events[n].token == f.r.acquired + 1
    && full.acquired > f.r.acquired
  }

  lemma RefusedBefore(P: Platform, L: Limits, p: seq<Insn>, c: Config, pc: nat)
    requires Valid(L, p) && Running(L, c) && Shape(L, c) && pc < |p| && Unprepared(P, L, c, p[pc])
    ensures StoppedBefore(P, p, Refused(c, pc), Exec(L, p, c, pc).r)
  {
    ValidAt(L, p, pc);
    StepExtends(L, p, c, pc);
    ExecUnfolds(L, p, c, pc);
    TakesCell(L, p, c, pc);
    hide Exec, Step, Accounted;
    var o := Step(L, p, c, pc);
    ExecExtends(L, p, o.c, o.pc);
  }

  lemma TakesCell(L: Limits, p: seq<Insn>, c: Config, pc: nat)
    requires Shape(L, c) && pc < |p| && p[pc].op.Acquire? && p[pc].imm != 0 && Wellformed(L, |p|, pc, p[pc])
    requires c.r.acquired < L.cells
    ensures Step(L, p, c, pc).Next? && Step(L, p, c, pc).c.r.acquired == c.r.acquired + 1
  {
  }

  // The gate stops early exactly when a cell the reference run acquires cannot be prepared.
  lemma {:induction false} StoppedExactly(P: Platform, L: Limits, p: seq<Insn>, c: Config, pc: nat)
    requires Valid(L, p) && Running(L, c) && pc < |p|
    ensures var ((f, failed), full) := (Stopped(P, L, p, c, pc), Exec(L, p, c, pc));
      && (!failed ==> f == full)
      && (failed ==> StoppedBefore(P, p, f, full.r))
      && (failed ==> forall i :: c.r.acquired <= i < f.r.acquired ==> PrepareView(P, i).Some?)
      && (failed <==> exists i :: c.r.acquired <= i < full.r.acquired && PrepareView(P, i).None?)
    decreases |p| - pc
  {
    RunningShape(L, c);
    ValidAt(L, p, pc);
    hide Step, Exec, Running, Shape, Wellformed, Valid, Unprepared, StoppedBefore, PrepareView;
    ExecUnfolds(L, p, c, pc);
    if Unprepared(P, L, c, p[pc]) {
      RefusedBefore(P, L, p, c, pc);
      RefusedWitness(P, L, p, c, pc);
    } else {
      StepRunning(L, p, c, pc);
      StepExtends(L, p, c, pc);
      PreparedStep(P, L, p, c, pc);
      var o := Step(L, p, c, pc);
      if o.Next? {
        StoppedExactly(P, L, p, o.c, o.pc);
        ExecExtends(L, p, o.c, o.pc);
      }
    }
  }

  lemma RunningShape(L: Limits, c: Config)
    requires Running(L, c)
    ensures Shape(L, c)
  {
  }

  lemma RefusedWitness(P: Platform, L: Limits, p: seq<Insn>, c: Config, pc: nat)
    requires Valid(L, p) && Shape(L, c) && pc < |p| && Unprepared(P, L, c, p[pc])
    requires StoppedBefore(P, p, Refused(c, pc), Exec(L, p, c, pc).r)
    ensures c.r.acquired < Exec(L, p, c, pc).r.acquired && PrepareView(P, c.r.acquired).None?
  {
    hide Exec;
  }

  // A step that is not refused acquires only a prepared cell.
  lemma PreparedStep(P: Platform, L: Limits, p: seq<Insn>, c: Config, pc: nat)
    requires Shape(L, c) && pc < |p| && Wellformed(L, |p|, pc, p[pc]) && !Unprepared(P, L, c, p[pc])
    ensures forall i :: c.r.acquired <= i < Step(L, p, c, pc).c.r.acquired ==> PrepareView(P, i).Some?
  {
    StepExtends(L, p, c, pc);
    hide Step, PrepareView;
  }

  lemma StoppedAccounted(P: Platform, L: Limits, p: seq<Insn>, c: Config, pc: nat)
    requires Valid(L, p) && Running(L, c) && pc < |p|
    ensures Accounted(L, Stopped(P, L, p, c, pc).0)
    decreases |p| - pc
  {
    RunningShape(L, c);
    ValidAt(L, p, pc);
    RunningAccounted(L, c);
    hide Step, Running, Shape, Wellformed, Valid, Unprepared, Accounted;
    if Unprepared(P, L, c, p[pc]) {
      SameAccount(L, c, Refused(c, pc));
    } else {
      StepAccounted(L, p, c, pc);
      StepRunning(L, p, c, pc);
      var o := Step(L, p, c, pc);
      StepBounds(L, p, c, pc);
      if o.Next? { StoppedAccounted(P, L, p, o.c, o.pc); }
    }
  }

  lemma StepBounds(L: Limits, p: seq<Insn>, c: Config, pc: nat)
    requires Valid(L, p) && Shape(L, c) && pc < |p| && Wellformed(L, |p|, pc, p[pc])
    ensures Step(L, p, c, pc).Next? ==> pc < Step(L, p, c, pc).pc < |p|
  {
    hide Step;
  }

  lemma RunningAccounted(L: Limits, c: Config)
    requires Running(L, c)
    ensures Accounted(L, c) && Shape(L, Refused(c, 0))
  {
  }

  lemma {:induction false} CleanupExtends(L: Limits, c: Config, i: nat)
    requires Shape(L, c)
    ensures var events, n := Cleanup(c, i).r.events, |c.r.events|;
      c.r.events <= events && forall k :: n <= k < |events| ==> events[k].kind.CleanupEvent?
    decreases c.r.acquired - i
  {
    if i < c.r.acquired {
      CleanupExtends(L, CleanupCell(c, i), i + 1);
    }
  }

  // Cleanup restores the baseline whatever the configuration it starts from.
  lemma CleanupBalances(L: Limits, f: Config)
    requires Accounted(L, f) && Shape(L, f)
    ensures var r := Cleanup(f, 0).r;
      && r.refs == 1 && r.acquired == f.r.acquired && |r.explicitBy| == |r.cleanupBy| == L.cells
      && r.status == f.r.status && r.trap == f.r.trap && r.returned == f.r.returned && r.pc == f.r.pc
      && r.explicitBy == f.r.explicitBy
      && forall i :: 0 <= i < r.acquired ==> r.explicitBy[i] + r.cleanupBy[i] == 1
  {
    CleanupDrops(f, 0);
    hide Cleanup;
    CountNone(Cleanup(f, 0).live);
  }

  // Every view the reference run needs can be prepared.
  ghost predicate AllPrepared(P: Platform, L: Limits, p: seq<Insn>)
  {
    forall i :: 0 <= i < Run(L, p).acquired ==> PrepareView(P, i).Some?
  }

  lemma RunParts(L: Limits, p: seq<Insn>)
    requires Valid(L, p)
    ensures |p| > 0 && Run(L, p) == Cleanup(Exec(L, p, Initial(L), 0), 0).r
    ensures Run(L, p).acquired == Exec(L, p, Initial(L), 0).r.acquired
    ensures Exec(L, p, Initial(L), 0).r.events <= Run(L, p).events
  {
    CleanupDrops(Exec(L, p, Initial(L), 0), 0);
    CleanupExtends(L, Exec(L, p, Initial(L), 0), 0);
    hide Exec, Cleanup;
  }

  // With its views prepared the gate is the reference machine: the whole result is equal,
  // field by field and event by event, and the metrics are the counts of that trace.
  lemma GateIsReference(P: Platform, L: Limits, p: seq<Insn>)
    requires Sane(P, L.cells)
    ensures AllPrepared(P, L, p) ==> GateRun(P, L, p) == (Run(L, p), MetricsOf(P, Run(L, p), false))
    ensures !P.purecap ==> AllPrepared(P, L, p)
  {
    if AllPrepared(P, L, p) && Valid(L, p) {
      InitialRunning(L);
      RunParts(L, p);
      StoppedExactly(P, L, p, Initial(L), 0);
      GateRunStops(P, L, p);
      hide Stopped, Exec, Cleanup, Run, GateRun, Valid, MetricsOf, PrepareView;
    }
  }

  // Where such a run stands when its next view cannot be prepared.
  lemma RefusalFacts(P: Platform, L: Limits, p: seq<Insn>) returns (f: Config)
    requires Sane(P, L.cells) && !AllPrepared(P, L, p)
    ensures Valid(L, p) && Shape(L, f) && Accounted(L, f) && StoppedBefore(P, p, f, Run(L, p))
    ensures forall i :: 0 <= i < f.r.acquired ==> PrepareView(P, i).Some?
    ensures GateRun(P, L, p) == (Cleanup(f, 0).r, MetricsOf(P, Cleanup(f, 0).r, true))
  {
    var c := Initial(L);
    assert Valid(L, p);
    hide AllPrepared, StoppedBefore, GateRun, MetricsOf, PrepareView, Accounted, Exec, Cleanup, Stopped, Valid;
    InitialRunning(L);
    RunParts(L, p);
    StoppedExactly(P, L, p, c, 0);
    GateRunStops(P, L, p);
    StoppedAccounted(P, L, p, c, 0);
    UnpreparedRun(P, L, p);
    f := Stopped(P, L, p, c, 0).0;
    StoppedBeforeRun(P, L, p, f);
  }

  lemma UnpreparedRun(P: Platform, L: Limits, p: seq<Insn>)
    requires Valid(L, p) && |p| > 0 && !AllPrepared(P, L, p)
    ensures exists i :: 0 <= i < Exec(L, p, Initial(L), 0).r.acquired && PrepareView(P, i).None?
  {
    RunParts(L, p);
  }

  // Cleanup only appends, so the stopping point is also one of the whole run.
  lemma StoppedBeforeRun(P: Platform, L: Limits, p: seq<Insn>, f: Config)
    requires Valid(L, p) && |p| > 0 && StoppedBefore(P, p, f, Exec(L, p, Initial(L), 0).r)
    ensures StoppedBefore(P, p, f, Run(L, p))
  {
    RunParts(L, p);
    hide Run, Exec, Cleanup, PrepareView, Valid;
  }

  // With an unprepared view the gate stops at the first acquisition that needs one. Its events
  // are the reference run's up to there, then cleanup; the failed acquisition has no effect.
  lemma GateRefusal(P: Platform, L: Limits, p: seq<Insn>)
    requires Sane(P, L.cells) && !AllPrepared(P, L, p)
    ensures var ((r, m), full) := (GateRun(P, L, p), Run(L, p));
      && m == MetricsOf(P, r, true) && m.representationErrors == 1
      && r.status == Invalid && r.trap == NoTrap && r.returned == 0 && r.refs == 1
      && r.acquired < full.acquired && PrepareView(P, r.acquired).None?
      && (forall i :: 0 <= i < r.acquired ==> PrepareView(P, i).Some?)
      && |r.explicitBy| == |r.cleanupBy| == L.cells
      && (forall i :: 0 <= i < r.acquired && i < L.cells ==> r.explicitBy[i] + r.cleanupBy[i] == 1)
      && exists n ::
           && 0 <= n < |full.events| && n <= |r.events| && r.events[..n] == full.events[..n]
           && full.events[n] == Event(StepEvent, Acquire, r.pc, r.acquired + 1, full.events[n].refs)
           && forall k :: n <= k < |r.events| ==> r.events[k].kind.CleanupEvent?
  {
    hide Cleanup, Run, GateRun, Valid, PrepareView, Accounted, Shape, AllPrepared, Sane, Attempts;
    var f := RefusalFacts(P, L, p);
    CleanupBalances(L, f);
    CleanupExtends(L, f, 0);
    var n, full := |f.r.events|, Run(L, p);
    assert full.events[..n] == f.r.events;
  }

  // The host build at the sizes of src/cbpf.h: preparation cannot fail, so the two
  // implementations agree on every program.
  lemma HostGateIsReference(P: Platform, p: seq<Insn>)
    requires Sane(P, HOST.cells) && !P.purecap
    ensures GateRun(P, HOST, p) == (Run(HOST, p), MetricsOf(P, Run(HOST, p), false))
  {
    GateIsReference(P, HOST, p);
    hide Run, GateRun, MetricsOf, PrepareView;
  }
}
