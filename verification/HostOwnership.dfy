/** Ownership in the reference machine of src/cbpf.c, for every program and every size:
    reference accounting at each step, independence of acquisitions, balanced endings. */
module HostOwnership {
  import opened Common
  import opened HostMachine

  // The machine after k iterations of its loop, from any configuration.
  function After(L: Limits, p: seq<Insn>, c: Config, pc: nat, k: nat): (o: Outcome)
    requires Valid(L, p) && Shape(L, c) && pc < |p|
    ensures Shape(L, o.c) && (o.Next? ==> o.pc < |p|)
  {
    if k == 0 then Next(c, pc)
    else
      match After(L, p, c, pc, k - 1)
      case Halt(c') => Halt(c')
      case Next(c', pc') => Step(L, p, c', pc')
  }

  function At(L: Limits, p: seq<Insn>, k: nat): (o: Outcome)
    requires Valid(L, p)
    ensures Shape(L, o.c) && (o.Next? ==> o.pc < |p|)
  {
    After(L, p, Initial(L), 0, k)
  }

  // Every acquisition is live or has exactly one release effect, and refs counts the live ones.
  ghost predicate Accounted(L: Limits, c: Config)
  {
    && Shape(L, c)
    && (forall i :: 0 <= i < c.r.acquired ==>
          c.r.explicitBy[i] + c.r.cleanupBy[i] == (if c.live[i] then 0 else 1))
    && (forall i :: c.r.acquired <= i < L.cells ==>
          !c.live[i] && c.r.explicitBy[i] == 0 && c.r.cleanupBy[i] == 0)
    && c.r.explicitReleases == Sum(c.r.explicitBy)
    && c.r.cleanupReleases == Sum(c.r.cleanupBy)
    && c.r.refs == 1 + Count(c.live)
    && c.r.refs == 1 + c.r.acquired - c.r.explicitReleases - c.r.cleanupReleases
  }

  // Still running: no cleanup yet and nothing trapped.
  ghost predicate Running(L: Limits, c: Config)
  {
    && Accounted(L, c)
    && c.r.cleanupReleases == 0 && (forall i :: 0 <= i < L.cells ==> c.r.cleanupBy[i] == 0)
    && c.r.status == Returned && c.r.trap == NoTrap && c.r.returned == 0
    && c.r.lastRead == (if c.r.readCount > 0 then 42 else 0)
  }

  lemma InitialRunning(L: Limits)
    ensures Running(L, Initial(L))
  {
    var c := Initial(L);
    SumConstant(c.r.explicitBy, 0);
    SumConstant(c.r.cleanupBy, 0);
    CountNone(c.live);
  }

  lemma TakeAccounted(L: Limits, c: Config, dst: nat)
    requires Accounted(L, c) && c.r.acquired < L.cells && dst < L.regs
    ensures Accounted(L, TakeCell(c, dst))
  {
    CountUpdate(c.live, c.r.acquired, true);
  }

  lemma DropAccounted(L: Limits, c: Config, token: nat)
    requires Accounted(L, c) && 0 < token <= c.r.acquired && c.live[token - 1]
    ensures Accounted(L, DropCell(c, token))
  {
    CountUpdate(c.live, token - 1, false);
    SumUpdate(c.r.explicitBy, token - 1, c.r.explicitBy[token - 1] + 1);
  }

  // Accounting does not read aliases, observations or the log.
  lemma SameAccount(L: Limits, c: Config, d: Config)
    requires Accounted(L, c) && Shape(L, d) && d.live == c.live
    requires d.r.acquired == c.r.acquired && d.r.refs == c.r.refs
    requires d.r.explicitBy == c.r.explicitBy && d.r.cleanupBy == c.r.cleanupBy
    requires d.r.explicitReleases == c.r.explicitReleases && d.r.cleanupReleases == c.r.cleanupReleases
    ensures Accounted(L, d)
  {
  }

  lemma AcquireAccounted(L: Limits, c: Config, x: Insn)
    requires Accounted(L, c) && x.dst < L.regs
    ensures Accounted(L, AcquireStep(L, c, x).c)
  {
    var after := AcquireStep(L, c, x).c;
    if x.imm != 0 && c.r.acquired < L.cells {
      TakeAccounted(L, c, x.dst);
      SameAccount(L, TakeCell(c, x.dst), after);
    } else {
      SameAccount(L, c, after);
    }
  }

  lemma UseAccounted(L: Limits, c: Config, x: Insn)
    requires Accounted(L, c) && x.dst < L.regs
    ensures Accounted(L, UseStep(L, c, x).c)
  {
    var token, after := c.regs[x.dst], UseStep(L, c, x).c;
    if token != 0 && c.live[token - 1] && !x.op.Read? {
      DropAccounted(L, c, token);
      SameAccount(L, DropCell(c, token), after);
    } else {
      SameAccount(L, c, after);
    }
  }

  lemma StepAccounted(L: Limits, p: seq<Insn>, before: Config, pc: nat)
    requires Accounted(L, before) && pc < |p| && Wellformed(L, |p|, pc, p[pc])
    ensures Accounted(L, Step(L, p, before, pc).c)
  {
    assert Shape(L, before);
    hide Accounted, AcquireStep, UseStep;
    var x, after := p[pc], Step(L, p, before, pc).c;
    var c := before.(r := before.r.(pc := pc));
    SameAccount(L, before, c);
    if x.op.Acquire? {
      AcquireAccounted(L, c, x);
    } else if x.op.Release? || x.op.Read? {
      UseAccounted(L, c, x);
    } else {
      SameAccount(L, c, after);
    }
  }

  lemma StepRunning(L: Limits, p: seq<Insn>, c: Config, pc: nat)
    requires Running(L, c) && pc < |p| && Wellformed(L, |p|, pc, p[pc])
    ensures Step(L, p, c, pc).Next? ==> Running(L, Step(L, p, c, pc).c)
  {
    StepAccounted(L, p, c, pc);
  }

  // At every step of every program the account balances.
  lemma {:induction false} EveryStepAccounted(L: Limits, p: seq<Insn>, k: nat)
    requires Valid(L, p)
    ensures Accounted(L, At(L, p, k).c)
    ensures At(L, p, k).Next? ==> Running(L, At(L, p, k).c)
  {
    hide Step, Accounted;
    if k == 0 {
      InitialRunning(L);
    } else {
      EveryStepAccounted(L, p, k - 1);
      var o := At(L, p, k - 1);
      if o.Next? {
        StepAccounted(L, p, o.c, o.pc);
        StepRunning(L, p, o.c, o.pc);
      }
    }
  }

  // One iteration touches at most one cell: the fresh one, or the one its register names.
  lemma StepIndependent(L: Limits, p: seq<Insn>, c: Config, pc: nat, i: nat)
    requires Running(L, c) && pc < |p| && Wellformed(L, |p|, pc, p[pc]) && i < c.r.acquired
    ensures var x, c' := p[pc], Step(L, p, c, pc).c;
      && c.r.acquired <= c'.r.acquired
      && (c'.live[i] ==> c.live[i])
      && (c'.live[i] != c.live[i] || c'.r.explicitBy[i] != c.r.explicitBy[i] ==>
            x.op.Release? && c.regs[x.dst] == i + 1 && c.live[i] && !c'.live[i]
            && c'.r.explicitBy[i] == 1 && c'.regs == c.regs && c'.spills == c.spills)
  {
  }

  // d is c with the live cells in [lo, hi) consumed by cleanup.
  ghost predicate Dropped(c: Config, d: Config, lo: nat, hi: nat)
  {
    && d.regs == c.regs && d.spills == c.spills && |d.live| == |c.live|
    && d == c.(live := d.live, r := c.r.(refs := d.r.refs, cleanupReleases := d.r.cleanupReleases,
                                         cleanupBy := d.r.cleanupBy, events := d.r.events))
    && |d.r.cleanupBy| == |c.r.cleanupBy|
    && (forall j :: 0 <= j < |c.live| ==> d.live[j] == (c.live[j] && !(lo <= j < hi)))
    && (forall j :: 0 <= j < |c.live| && j < |c.r.cleanupBy| ==>
          d.r.cleanupBy[j] == c.r.cleanupBy[j] + (if lo <= j < hi && c.live[j] then 1 else 0))
    && (forall j :: |c.live| <= j < |c.r.cleanupBy| ==> d.r.cleanupBy[j] == c.r.cleanupBy[j])
    && d.r.refs - Count(d.live) == c.r.refs - Count(c.live)
    && d.r.cleanupReleases - Sum(d.r.cleanupBy) == c.r.cleanupReleases - Sum(c.r.cleanupBy)
    && d.r.refs + d.r.cleanupReleases == c.r.refs + c.r.cleanupReleases
  }

  lemma CleanupCellDrops(c: Config, i: nat)
    requires i < |c.live| && i < |c.r.cleanupBy|
    ensures Dropped(c, CleanupCell(c, i), i, i + 1)
  {
    if c.live[i] {
      CountUpdate(c.live, i, false);
      SumUpdate(c.r.cleanupBy, i, c.r.cleanupBy[i] + 1);
    }
  }

  // The cleanup loop consumes exactly the remaining live cells.
  lemma {:induction false} CleanupDrops(c: Config, i: nat)
    requires c.r.acquired <= |c.live| && c.r.acquired <= |c.r.cleanupBy| && i <= c.r.acquired
    ensures Dropped(c, Cleanup(c, i), i, c.r.acquired)
    decreases c.r.acquired - i
  {
    hide CleanupCell;
    if i < c.r.acquired {
      CleanupCellDrops(c, i);
      CleanupDrops(CleanupCell(c, i), i + 1);
    }
  }

  // Every iteration sequence ends, at Exec's configuration.
  lemma {:induction false} ExecIsAt(L: Limits, p: seq<Insn>, c: Config, pc: nat, k: nat)
    returns (steps: nat)
    requires Valid(L, p) && At(L, p, k) == Next(c, pc)
    ensures At(L, p, steps) == Halt(Exec(L, p, c, pc)) && k < steps <= k + |p| - pc
    decreases |p| - pc
  {
    hide Step;
    assert At(L, p, k + 1) == Step(L, p, c, pc);
    match Step(L, p, c, pc) {
      case Halt(c') => steps := k + 1;
      case Next(c', pc') => steps := ExecIsAt(L, p, c', pc', k + 1);
    }
  }

  lemma ExecAccounted(L: Limits, p: seq<Insn>)
    requires Valid(L, p)
    ensures Accounted(L, Exec(L, p, Initial(L), 0))
  {
    hide Step, Accounted;
    var steps := ExecIsAt(L, p, Initial(L), 0, 0);
    EveryStepAccounted(L, p, steps);
  }

  // Every finished run is balanced: one release effect per acquisition, baseline restored.
  lemma RunBalanced(L: Limits, p: seq<Insn>)
    ensures var r := Run(L, p);
      && r.refs == 1
      && r.acquired <= L.cells && |r.explicitBy| == |r.cleanupBy| == L.cells
      && (forall i :: 0 <= i < r.acquired ==> r.explicitBy[i] + r.cleanupBy[i] == 1)
      && (forall i :: r.acquired <= i < L.cells ==> r.explicitBy[i] == 0 && r.cleanupBy[i] == 0)
      && r.explicitReleases + r.cleanupReleases == r.acquired
      && r.explicitReleases == Sum(r.explicitBy) && r.cleanupReleases == Sum(r.cleanupBy)
  {
    if Valid(L, p) {
      var c := Exec(L, p, Initial(L), 0);
      assert Accounted(L, c) by { ExecAccounted(L, p); }
      hide Exec, Step, Cleanup;
      CleanupDrops(c, 0);
      CountNone(Cleanup(c, 0).live);
    } else {
      SumConstant(EmptyResult(L).explicitBy, 0);
      SumConstant(EmptyResult(L).cleanupBy, 0);
    }
  }

  // How an iteration that leaves the loop at pc fills in the result.
  ghost predicate Ending(L: Limits, p: seq<Insn>, r: Result)
  {
    && r.pc < |p| && r.status != Invalid
    && (r.status == Returned <==> r.trap == NoTrap) && (r.status == Returned <==> p[r.pc].op.Return?)
    && r.returned == (if r.status == Returned then p[r.pc].imm else 0)
    && (r.trap == ExhaustedTrap ==> p[r.pc].op.Acquire? && r.acquired == L.cells)
    && (r.trap == NullTrap || r.trap == StaleTrap ==> p[r.pc].op.Read? || p[r.pc].op.Release?)
    && r.lastRead == (if r.readCount > 0 then 42 else 0)
  }

  lemma StepEnds(L: Limits, p: seq<Insn>, c: Config, pc: nat)
    requires Running(L, c) && pc < |p| && Wellformed(L, |p|, pc, p[pc])
    ensures Step(L, p, c, pc).Halt? ==> Ending(L, p, Step(L, p, c, pc).c.r)
  {
    hide Accounted;
  }

  lemma ExecUnfolds(L: Limits, p: seq<Insn>, c: Config, pc: nat)
    requires Valid(L, p) && Shape(L, c) && pc < |p|
    ensures var o := Step(L, p, c, pc);
      Shape(L, o.c) && (if o.Halt? then Exec(L, p, c, pc) == o.c
                        else pc < o.pc < |p| && Exec(L, p, c, pc) == Exec(L, p, o.c, o.pc))
  {
    hide Step;
  }

  // A valid program's run ends by a return or a trap, with the fields of that ending.
  lemma {:induction false} ExecEnds(L: Limits, p: seq<Insn>, c: Config, pc: nat)
    requires Valid(L, p) && Running(L, c) && pc < |p|
    ensures Ending(L, p, Exec(L, p, c, pc).r)
    decreases |p| - pc
  {
    assert Shape(L, c) && Wellformed(L, |p|, pc, p[pc]);
    hide *;
    ExecUnfolds(L, p, c, pc);
    StepRunning(L, p, c, pc);
    StepEnds(L, p, c, pc);
    var o := Step(L, p, c, pc);
    if o.Next? { ExecEnds(L, p, o.c, o.pc); }
  }
}
