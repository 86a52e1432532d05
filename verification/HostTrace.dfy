/** The event trace of src/cbpf.c is a faithful log: folding the events alone recovers every
    counter of the result, each event carries the balance of its own prefix, and the buffer
    of CBPF_MAX_INSNS + CBPF_CELLS entries is never exceeded. */
module HostTrace {
  import opened Common
  import opened HostMachine
  import opened HostOwnership

  // What an observer who sees only events can count.
  datatype Tally = Tally(acquired: nat, readCount: nat, explicitBy: seq<nat>, cleanupBy: seq<nat>)

  function Bump(counts: seq<nat>, token: nat): (r: seq<nat>)
    ensures |r| == |counts|
  {
    if 0 < token <= |counts| then counts[token - 1 := counts[token - 1] + 1] else counts
  }

  function Observe(t: Tally, e: Event): Tally
  {
    match e.kind
    case TrapEvent => t
    case CleanupEvent => t.(cleanupBy := Bump(t.cleanupBy, e.token))
    case StepEvent =>
      if e.op.Acquire? && e.token > 0 then t.(acquired := t.acquired + 1)
      else if e.op.Read? then t.(readCount := t.readCount + 1)
      else if e.op.Release? then t.(explicitBy := Bump(t.explicitBy, e.token))
      else t
  }

  function Fold(L: Limits, events: seq<Event>): Tally
  {
    if events == [] then Tally(0, 0, seq(L.cells, _ => 0), seq(L.cells, _ => 0))
    else Observe(Fold(L, events[..|events| - 1]), events[|events| - 1])
  }

  // The reference count implied by what has been observed.
  function Balance(t: Tally): int
  {
    1 + t.acquired - Sum(t.explicitBy) - Sum(t.cleanupBy)
  }

  function TallyOf(r: Result): Tally
  {
    Tally(r.acquired, r.readCount, r.explicitBy, r.cleanupBy)
  }

  // The log so far agrees with the counters, event by event.
  ghost predicate Faithful(L: Limits, r: Result)
  {
    && Fold(L, r.events) == TallyOf(r)
    && forall k :: 0 <= k < |r.events| ==> r.events[k].refs == Balance(Fold(L, r.events[..k + 1]))
  }

  // Program events are in program order, all before pc, one per instruction at most.
  ghost predicate Ordered(events: seq<Event>, pc: nat)
  {
    && |events| <= pc
    && (forall k :: 0 <= k < |events| ==> !events[k].kind.CleanupEvent? && events[k].pc < pc)
    && (forall j, k :: 0 <= j < k < |events| ==> events[j].pc < events[k].pc)
  }

  // One more event, recorded with the counters it leads to.
  lemma LogFaithful(L: Limits, before: Result, after: Result, kind: EventKind, op: Opcode, token: nat)
    requires Faithful(L, before) && after.events == before.events
    requires TallyOf(after) == Observe(TallyOf(before), Event(kind, op, after.pc, token, after.refs))
    requires after.refs == Balance(TallyOf(after))
    ensures Faithful(L, Log(after, kind, op, token))
  {
    var logged := Log(after, kind, op, token);
    var n := |before.events|;
    assert logged.events[..n] == before.events;
    forall k | 0 <= k < |logged.events|
      ensures logged.events[k].refs == Balance(Fold(L, logged.events[..k + 1]))
    {
      if k < n {
        assert logged.events[..k + 1] == before.events[..k + 1];
      } else {
        assert logged.events[..k + 1] == logged.events;
      }
    }
  }

  // r is before plus one event that accounts for everything that changed.
  ghost predicate Witnessed(before: Result, r: Result, op: Opcode, pc: nat)
  {
    var n := |before.events|;
    && |r.events| == n + 1 && r.events[..n] == before.events
    && r.events[n] == Event(r.events[n].kind, op, pc, r.events[n].token, r.refs)
    && !r.events[n].kind.CleanupEvent?
    && r.pc == pc && TallyOf(r) == Observe(TallyOf(before), r.events[n])
  }

  lemma AcquireWitnessed(L: Limits, c: Config, x: Insn)
    requires Running(L, c) && x.dst < L.regs && x.op.Acquire?
    ensures Witnessed(c.r, AcquireStep(L, c, x).c.r, x.op, c.r.pc)
  {
  }

  lemma UseWitnessed(L: Limits, c: Config, x: Insn)
    requires Running(L, c) && x.dst < L.regs && (x.op.Read? || x.op.Release?)
    ensures Witnessed(c.r, UseStep(L, c, x).c.r, x.op, c.r.pc)
  {
  }

  // One iteration appends one event that accounts for everything it did.
  lemma StepWitnessed(L: Limits, p: seq<Insn>, before: Config, pc: nat)
    requires Running(L, before) && pc < |p| && Wellformed(L, |p|, pc, p[pc])
    ensures Witnessed(before.r, Step(L, p, before, pc).c.r, p[pc].op, pc)
  {
    hide AcquireStep, UseStep;
    var x := p[pc];
    var c := before.(r := before.r.(pc := pc));
    if x.op.Acquire? { AcquireWitnessed(L, c, x); }
    if x.op.Read? || x.op.Release? { UseWitnessed(L, c, x); }
  }

  lemma StepFaithful(L: Limits, p: seq<Insn>, before: Config, pc: nat)
    requires Running(L, before) && Faithful(L, before.r) && Ordered(before.r.events, pc)
    requires pc < |p| && Wellformed(L, |p|, pc, p[pc])
    ensures Faithful(L, Step(L, p, before, pc).c.r) && Ordered(Step(L, p, before, pc).c.r.events, pc + 1)
  {
    StepWitnessed(L, p, before, pc);
    StepAccounted(L, p, before, pc);
    hide Step, Observe, Faithful, Witnessed, Ordered;
    WitnessedFaithful(L, before.r, Step(L, p, before, pc).c.r, p[pc].op, pc);
  }

  lemma WitnessedFaithful(L: Limits, before: Result, r: Result, op: Opcode, pc: nat)
    requires Faithful(L, before) && Ordered(before.events, pc)
    requires Witnessed(before, r, op, pc) && r.refs == Balance(TallyOf(r))
    ensures Faithful(L, r) && Ordered(r.events, pc + 1)
  {
    hide Observe, Faithful, Balance;
    var n := |before.events|;
    var e := r.events[n];
    LogFaithful(L, before, r.(events := before.events), e.kind, e.op, e.token);
    assert r == Log(r.(events := before.events), e.kind, e.op, e.token) by {
      assert r.events == r.events[..n] + [e];
    }
  }

  lemma OrderedLater(events: seq<Event>, pc: nat, later: nat)
    requires Ordered(events, pc) && pc <= later
    ensures Ordered(events, later)
  {
  }

  lemma {:induction false} ExecFaithful(L: Limits, p: seq<Insn>, c: Config, pc: nat)
    requires Valid(L, p) && Running(L, c) && pc < |p|
    requires Faithful(L, c.r) && Ordered(c.r.events, pc)
    ensures Faithful(L, Exec(L, p, c, pc).r) && Ordered(Exec(L, p, c, pc).r.events, |p|)
    decreases |p| - pc
  {
    assert Shape(L, c) && Wellformed(L, |p|, pc, p[pc]);
    hide *;
    ExecUnfolds(L, p, c, pc);
    StepFaithful(L, p, c, pc);
    StepRunning(L, p, c, pc);
    var o := Step(L, p, c, pc);
    OrderedLater(o.c.r.events, pc + 1, |p|);
    if o.Next? {
      OrderedLater(o.c.r.events, pc + 1, o.pc);
      ExecFaithful(L, p, o.c, o.pc);
    }
  }

  lemma CleanupCellAccounted(L: Limits, c: Config, i: nat)
    requires Accounted(L, c) && i < c.r.acquired
    ensures Accounted(L, CleanupCell(c, i)) && Shape(L, CleanupCell(c, i))
  {
    if c.live[i] {
      CountUpdate(c.live, i, false);
      SumUpdate(c.r.cleanupBy, i, c.r.cleanupBy[i] + 1);
    }
  }

  lemma CleanupCellFaithful(L: Limits, c: Config, i: nat)
    requires Accounted(L, c) && Faithful(L, c.r) && i < c.r.acquired
    ensures Accounted(L, CleanupCell(c, i)) && Faithful(L, CleanupCell(c, i).r)
    ensures CleanupCell(c, i).r.acquired == c.r.acquired && Shape(L, CleanupCell(c, i))
    ensures c.live[i] ==> exists e :: CleanupCell(c, i).r.events == c.r.events + [e] && e.kind.CleanupEvent?
    ensures !c.live[i] ==> CleanupCell(c, i) == c
  {
    hide Sum, Count, Fold;
    CleanupCellAccounted(L, c, i);
    if c.live[i] {
      var r := CleanupCell(c, i).r.(events := c.r.events);
      LogFaithful(L, c.r, r, CleanupEvent, Release, i + 1);
      assert CleanupCell(c, i).r.events == c.r.events + [Event(CleanupEvent, Release, r.pc, i + 1, r.refs)];
    }
  }

  lemma {:induction false} CleanupFaithful(L: Limits, c: Config, i: nat)
    requires Accounted(L, c) && Faithful(L, c.r) && i <= c.r.acquired
    ensures var events := Cleanup(c, i).r.events;
      && Faithful(L, Cleanup(c, i).r)
      && c.r.events <= events && |events| <= |c.r.events| + c.r.acquired - i
      && forall k :: |c.r.events| <= k < |events| ==> events[k].kind.CleanupEvent?
    decreases c.r.acquired - i
  {
    hide Accounted, Faithful, CleanupCell, Shape, Cleanup;
    AccountedBounds(L, c);
    CleanupUnfolds(c, i);
    if i < c.r.acquired {
      var c' := CleanupCell(c, i);
      CleanupCellFaithful(L, c, i);
      assert c.r.events <= c'.r.events && |c'.r.events| <= |c.r.events| + 1;
      CleanupFaithful(L, c', i + 1);
    }
  }

  lemma AccountedBounds(L: Limits, c: Config)
    requires Accounted(L, c)
    ensures c.r.acquired <= |c.live| && c.r.acquired <= |c.r.cleanupBy|
  {
  }

  lemma CleanupUnfolds(c: Config, i: nat)
    requires c.r.acquired <= |c.live| && c.r.acquired <= |c.r.cleanupBy|
    ensures Cleanup(c, i) == if i < c.r.acquired then Cleanup(CleanupCell(c, i), i + 1) else c
  {
    hide CleanupCell;
  }

  // The finished trace: a faithful log within its buffer.
  lemma TraceFaithful(L: Limits, p: seq<Insn>)
    ensures var r := Run(L, p);
      && Fold(L, r.events) == TallyOf(r)
      && (forall k :: 0 <= k < |r.events| ==> r.events[k].refs == Balance(Fold(L, r.events[..k + 1])))
      && (forall j, k :: 0 <= j < k < |r.events| && !r.events[k].kind.CleanupEvent? ==>
            !r.events[j].kind.CleanupEvent? && r.events[j].pc < r.events[k].pc < |p|)
      && |r.events| <= |p| + L.cells
      && (Valid(L, p) ==> |r.events| <= L.maxInsns + L.cells)
  {
    if Valid(L, p) {
      InitialRunning(L);
      ExecFaithful(L, p, Initial(L), 0);
      ExecAccounted(L, p);
      hide Exec, Step, Cleanup;
      CleanupFaithful(L, Exec(L, p, Initial(L), 0), 0);
    }
  }
}
