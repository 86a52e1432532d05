/** src/cbpf.c as it runs: the validator's index loop and the interpreter that fills in the
    caller's result structure and its event buffer, proved against HostMachine. */
module HostRun {
  import opened Common
  import opened HostMachine

  method Validate(L: Limits, p: seq<Insn>) returns (bad: Option<nat>)
    ensures bad.None? <==> Accepts(L, p)
    ensures bad.Some? ==> Reports(L, p, bad.value)
    ensures bad.None? <==> Valid(L, p)
    ensures bad.Some? ==> Blames(L, p, bad.value)
  {
    ValidExactly(L, p);
    hide Accepts, Reports;
    if |p| == 0 || |p| > L.maxInsns { return Some(0); }
    for i := 0 to |p|
      invariant forall j :: 0 <= j < i ==> Wellformed(L, |p|, j, p[j])
    {
      var x := p[i];
      var ok :=
        match x.op
        case Acquire => x.dst < L.regs && (x.imm == 0 || x.imm == 1)
        case Copy => x.dst < L.regs && x.src < L.regs
        case Spill => x.dst < L.spills && x.src < L.regs
        case Reload => x.dst < L.regs && x.src < L.spills
        case Read => x.dst < L.regs
        case Release => x.dst < L.regs
        case BrNull => x.dst < L.regs && !(x.imm <= i || x.imm >= |p|)
        case Return => true
        case Unknown => false;
      if !ok { return Some(i); }
    }
    if !p[|p| - 1].op.Return? { return Some(|p| - 1); }
    return None;
  }

  method Put<T>(a: array<T>, i: nat, v: T)
    requires i < a.Length
    modifies a
    ensures a[..] == old(a[..])[i := v]
  {
    a[i] := v;
  }

  // struct cbpf_result, supplied by the caller and cleared by each run.
  class RunResult {
    var status: Status
    var trap: Trap
    var pc: nat
    var returned: int
    var acquired: nat
    var readCount: nat
    var explicitReleases: nat
    var cleanupReleases: nat
    var lastRead: int
    var refs: int
    const explicitBy: array<nat>
    const cleanupBy: array<nat>
    var eventCount: nat
    const events: array<Event>

    constructor (L: Limits)
      ensures Fits(L)
      ensures fresh(explicitBy) && fresh(cleanupBy) && fresh(events)
    {
      explicitBy := new nat[L.cells](_ => 0);
      cleanupBy := new nat[L.cells](_ => 0);
      events := new Event[L.maxInsns + L.cells](_ => Event(StepEvent, Acquire, 0, 0, 0));
      status, trap, pc, returned, acquired, readCount := Returned, NoTrap, 0, 0, 0, 0;
      explicitReleases, cleanupReleases, lastRead, refs, eventCount := 0, 0, 0, 0, 0;
    }

    // The buffers have the sizes of the structure's arrays.
    ghost predicate Fits(L: Limits)
    {
      && explicitBy.Length == cleanupBy.Length == L.cells
      && explicitBy != cleanupBy
      && events.Length == L.maxInsns + L.cells
    }

    ghost function View(): Result
      requires eventCount <= events.Length
      reads this, explicitBy, cleanupBy, events
    {
      Result(status, trap, pc, returned, acquired, readCount, explicitReleases, cleanupReleases,
             lastRead, refs, explicitBy[..], cleanupBy[..], events[..eventCount])
    }

    // memset, then the object's baseline reference.
    method Clear(L: Limits)
      requires Fits(L)
      modifies this, explicitBy, cleanupBy
      ensures eventCount == 0 && View() == EmptyResult(L)
    {
      for i := 0 to L.cells
        invariant forall j :: 0 <= j < i ==> explicitBy[j] == 0 && cleanupBy[j] == 0
      {
        explicitBy[i], cleanupBy[i] := 0, 0;
      }
      status, trap, pc, returned, acquired, readCount := Returned, NoTrap, 0, 0, 0, 0;
      explicitReleases, cleanupReleases, lastRead, refs, eventCount := 0, 0, 0, 1, 0;
    }

    method Record(kind: EventKind, op: Opcode, at: nat, token: nat)
      requires eventCount < events.Length && at == pc
      modifies this`eventCount, events
      ensures eventCount == old(eventCount) + 1
      ensures View() == Log(old(View()), kind, op, token)
    {
      events[eventCount] := Event(kind, op, at, token, refs);
      eventCount := eventCount + 1;
    }
  }

  // The interpreter's locals.
  class Locals {
    const regs: array<nat>
    const spills: array<nat>
    const live: array<bool>

    constructor (L: Limits)
      ensures fresh(regs) && fresh(spills) && fresh(live) && regs != spills
      ensures regs[..] == Initial(L).regs && spills[..] == Initial(L).spills && live[..] == Initial(L).live
    {
      regs := new nat[L.regs](_ => 0);
      spills := new nat[L.spills](_ => 0);
      live := new bool[L.cells](_ => false);
    }

    ghost function With(r: RunResult): Config
      requires r.eventCount <= r.events.Length
      reads regs, spills, live, r, r.explicitBy, r.cleanupBy, r.events
    {
      Config(regs[..], spills[..], live[..], r.View())
    }
  }

  // No buffer of the run aliases another.
  ghost predicate Separate(s: Locals, r: RunResult)
  {
    s.regs != s.spills && s.regs != r.explicitBy && s.regs != r.cleanupBy
    && s.spills != r.explicitBy && s.spills != r.cleanupBy
  }

  // What every case may assume.
  ghost predicate Ready(L: Limits, p: seq<Insn>, s: Locals, r: RunResult, pc: nat)
    reads s.regs, s.spills, s.live, r, r.explicitBy, r.cleanupBy, r.events
  {
    && r.Fits(L) && Separate(s, r) && r.eventCount <= pc < |p| <= L.maxInsns
    && Shape(L, s.With(r)) && Wellformed(L, |p|, pc, p[pc]) && r.pc == pc
  }

  method TrapNow(L: Limits, p: seq<Insn>, s: Locals, r: RunResult, pc: nat, token: nat, trap: Trap)
    requires Ready(L, p, s, r, pc)
    modifies r, r.events
    ensures r.eventCount == old(r.eventCount) + 1
    ensures Halt(s.With(r)) == TrapOut(old(s.With(r)), p[pc], token, trap)
  {
    r.trap, r.status := trap, Trapped;
    r.Record(TrapEvent, p[pc].op, pc, token);
  }

  method DoAcquire(L: Limits, p: seq<Insn>, s: Locals, r: RunResult, pc: nat) returns (halted: bool)
    requires Ready(L, p, s, r, pc) && p[pc].op.Acquire?
    modifies s.regs, s.live, r, r.events
    ensures r.eventCount == old(r.eventCount) + 1
    ensures var o := Step(L, p, old(s.With(r)), pc);
      s.With(r) == o.c && halted == o.Halt? && (o.Next? ==> o.pc == pc + 1)
  {
    var x := p[pc];
    var token := 0;
    if x.imm == 0 {
      Put(s.regs, x.dst, 0);
    } else {
      if r.acquired == L.cells {
        TrapNow(L, p, s, r, pc, token, ExhaustedTrap);
        return true;
      }
      r.acquired := r.acquired + 1;
      token := r.acquired;
      Put(s.live, token - 1, true);
      Put(s.regs, x.dst, token);
      r.refs := r.refs + 1;
    }
    r.Record(StepEvent, x.op, pc, token);
    halted := false;
  }

  method DoMove(L: Limits, p: seq<Insn>, s: Locals, r: RunResult, pc: nat)
    requires Ready(L, p, s, r, pc) && (p[pc].op.Copy? || p[pc].op.Spill? || p[pc].op.Reload?)
    modifies s.regs, s.spills, r, r.events
    ensures r.eventCount == old(r.eventCount) + 1
    ensures Next(s.With(r), pc + 1) == Step(L, p, old(s.With(r)), pc)
  {
    var x := p[pc];
    var token := if x.op.Reload? then s.spills[x.src] else s.regs[x.src];
    if x.op.Spill? {
      Put(s.spills, x.dst, token);
    } else {
      Put(s.regs, x.dst, token);
    }
    r.Record(StepEvent, x.op, pc, token);
  }

  // An explicit release of a live cell.
  method ReleaseCell(s: Locals, r: RunResult, token: nat)
    requires r.eventCount <= r.events.Length && r.explicitBy != r.cleanupBy && Separate(s, r)
    requires 0 < token <= s.live.Length && token <= r.explicitBy.Length
    modifies s.live, r, r.explicitBy
    ensures r.eventCount == old(r.eventCount) && r.pc == old(r.pc)
    ensures s.With(r) == DropCell(old(s.With(r)), token)
  {
    Put(s.live, token - 1, false);
    r.refs := r.refs - 1;
    r.explicitReleases := r.explicitReleases + 1;
    Put(r.explicitBy, token - 1, r.explicitBy[token - 1] + 1);
  }

  method DoUse(L: Limits, p: seq<Insn>, s: Locals, r: RunResult, pc: nat) returns (halted: bool)
    requires Ready(L, p, s, r, pc) && (p[pc].op.Read? || p[pc].op.Release?)
    modifies s.live, r, r.explicitBy, r.events
    ensures r.eventCount == old(r.eventCount) + 1
    ensures var o := Step(L, p, old(s.With(r)), pc);
      s.With(r) == o.c && halted == o.Halt? && (o.Next? ==> o.pc == pc + 1)
  {
    var x := p[pc];
    var token := s.regs[x.dst];
    if token == 0 {
      TrapNow(L, p, s, r, pc, token, NullTrap);
      return true;
    }
    if !s.live[token - 1] {
      TrapNow(L, p, s, r, pc, token, StaleTrap);
      return true;
    }
    if x.op.Read? {
      r.readCount, r.lastRead := r.readCount + 1, 42;
    } else {
      ReleaseCell(s, r, token);
    }
    r.Record(StepEvent, x.op, pc, token);
    halted := false;
  }

  // One iteration: the switch on the opcode.
  method StepOnce(L: Limits, p: seq<Insn>, s: Locals, r: RunResult, pc: nat) returns (halted: bool, next: nat)
    requires r.Fits(L) && Separate(s, r) && r.eventCount <= pc < |p| <= L.maxInsns
    requires Shape(L, s.With(r)) && Wellformed(L, |p|, pc, p[pc])
    modifies s.regs, s.spills, s.live, r, r.explicitBy, r.events
    ensures r.eventCount <= old(r.eventCount) + 1
    ensures var o := Step(L, p, old(s.With(r)), pc);
      s.With(r) == o.c && halted == o.Halt? && (o.Next? ==> next == o.pc)
  {
    var x := p[pc];
    halted, next := false, pc + 1;
    ghost var before := s.With(r);
    r.pc := pc;
    StepIgnoresPc(L, p, before, pc);
    assert s.With(r) == before.(r := before.r.(pc := pc));
    if x.op.Acquire? {
      halted := DoAcquire(L, p, s, r, pc);
    } else if x.op.Copy? || x.op.Spill? || x.op.Reload? {
      DoMove(L, p, s, r, pc);
    } else if x.op.Read? || x.op.Release? {
      halted := DoUse(L, p, s, r, pc);
    } else if x.op.BrNull? {
      var token := s.regs[x.dst];
      if token == 0 { next := x.imm; }
      r.Record(StepEvent, x.op, pc, token);
    } else {
      r.returned, r.status, halted := x.imm, Returned, true;
      r.Record(StepEvent, x.op, pc, 0);
    }
  }

  // An iteration overwrites the program counter before anything else.
  lemma StepIgnoresPc(L: Limits, p: seq<Insn>, c: Config, pc: nat)
    requires Shape(L, c) && pc < |p| && Wellformed(L, |p|, pc, p[pc])
    ensures Shape(L, c.(r := c.r.(pc := pc)))
    ensures Step(L, p, c.(r := c.r.(pc := pc)), pc) == Step(L, p, c, pc)
  {
  }

  // One turn of the cleanup loop on a live cell.
  method SweepCell(s: Locals, r: RunResult, i: nat)
    requires r.eventCount < r.events.Length && r.explicitBy != r.cleanupBy && Separate(s, r)
    requires i < s.live.Length && i < r.cleanupBy.Length && s.live[i]
    modifies s.live, r, r.cleanupBy, r.events
    ensures r.eventCount == old(r.eventCount) + 1 && r.acquired == old(r.acquired)
    ensures s.With(r) == CleanupCell(old(s.With(r)), i)
  {
    Put(s.live, i, false);
    r.refs := r.refs - 1;
    r.cleanupReleases := r.cleanupReleases + 1;
    Put(r.cleanupBy, i, r.cleanupBy[i] + 1);
    r.Record(CleanupEvent, Release, r.pc, i + 1);
  }

  // The loop after finish: each still-live cell is consumed once, in index order.
  method CleanupCells(L: Limits, s: Locals, r: RunResult)
    requires r.Fits(L) && Separate(s, r) && r.eventCount <= L.maxInsns && Shape(L, s.With(r))
    modifies s.live, r, r.cleanupBy, r.events
    ensures r.eventCount <= r.events.Length && s.With(r) == Cleanup(old(s.With(r)), 0)
  {
    var i := 0;
    while i < r.acquired
      invariant i <= r.acquired <= L.cells && r.acquired == old(r.acquired)
      invariant r.eventCount <= L.maxInsns + i
      invariant Cleanup(s.With(r), i) == Cleanup(old(s.With(r)), 0)
    {
      if s.live[i] { SweepCell(s, r, i); }
      i := i + 1;
    }
  }

  // The loop over pc: it is left by a return or a trap only.
  method Interpret(L: Limits, p: seq<Insn>, s: Locals, r: RunResult)
    requires Valid(L, p) && r.Fits(L) && Separate(s, r) && r.eventCount == 0 && Shape(L, s.With(r))
    modifies s.regs, s.spills, s.live, r, r.explicitBy, r.events
    ensures r.eventCount <= |p|
    ensures s.With(r) == Exec(L, p, old(s.With(r)), 0)
  {
    hide Step, Shape;
    var pc := 0;
    ghost var final := Exec(L, p, s.With(r), 0);
    while pc < |p|
      invariant pc < |p| && r.eventCount <= pc && Shape(L, s.With(r))
      invariant Exec(L, p, s.With(r), pc) == final
    {
      ghost var before := s.With(r);
      LastReturns(L, p, before, pc);
      var halted, next := StepOnce(L, p, s, r, pc);
      if halted { break; }
      pc := next;
    }
  }

  lemma LastReturns(L: Limits, p: seq<Insn>, c: Config, pc: nat)
    requires Valid(L, p) && Shape(L, c) && pc < |p|
    ensures var o := Step(L, p, c, pc); Shape(L, o.c) && (o.Next? ==> pc < o.pc < |p|)
  {
  }

  method Run(L: Limits, p: seq<Insn>, r: RunResult)
    requires r.Fits(L)
    modifies r, r.explicitBy, r.cleanupBy, r.events
    ensures r.eventCount <= r.events.Length && r.View() == HostMachine.Run(L, p)
  {
    var s := new Locals(L);
    r.Clear(L);
    var bad := Validate(L, p);
    if bad.Some? {
      BlamesUnique(L, p, bad.value, Blamed(L, p).value);
      r.pc, r.status := bad.value, Invalid;
      return;
    }
    hide Exec, Cleanup, Valid;
    Interpret(L, p, s, r);
    CleanupCells(L, s, r);
  }
}
