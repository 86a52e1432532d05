/** The synchronous callback witness of linux/ownership/cbpf_runtime.c: a dispatcher that stops
    at the first rejected callback, its two fixed scenarios, and what their check decides. */
module KernelCallbacks {
  import opened Capabilities
  import opened Common
  import opened KernelMachine
  import opened KernelOwnership
  import opened KernelRun
  import T = KernelTrace

  // struct cbpf_callback_context.
  datatype Context = Context(aliases: seq<Capability>, calls: nat, completed: nat, value: nat, independent: bool)

  datatype Dispatched = Dispatched(s: Session, c: Context, ok: bool)

  // The alias a callback uses: its own, or the one retained by all of them.
  function Index(c: Context, iteration: nat): nat
  {
    if c.independent then iteration else 0
  }

  predicate InRange(K: Kernel, s: Session, c: Context, iteration: nat)
  {
    Shape(K, s) && Index(c, iteration) < |c.aliases| == K.cells
  }

  // cbpf_ownership_callback.
  function Callback(K: Kernel, s: Session, before: Context, iteration: nat): (d: Dispatched)
    requires InRange(K, s, before, iteration)
    ensures Shape(K, d.s) && |d.c.aliases| == K.cells && d.c.independent == before.independent
  {
    var i, pc := Index(before, iteration), 4 + 2 * iteration;
    var alias, c := before.aliases[i], before.(calls := before.calls + 1);
    if alias != s.views[i] || !alias.tag then Dispatched(Fail(s, pc), c, false)
    else if c.independent && iteration == 1 then
      var read := Gate(K, s, alias, 2, pc);
      if read.s.failed then Dispatched(read.s, c, false)
      else
        var release := Gate(K, read.s, alias, 3, pc + 1);
        Dispatched(release.s, c.(value := read.value.address % U32), !release.s.failed)
    else
      var release := Gate(K, s, alias, 3, pc);
      Dispatched(release.s, c, !release.s.failed)
  }

  // cbpf_dispatch_callbacks from an iteration on.
  function Dispatch(K: Kernel, s: Session, c: Context, iteration: nat, limit: nat): (d: Dispatched)
    requires Shape(K, s) && |c.aliases| == K.cells && K.cells > 0 && (c.independent ==> limit <= K.cells)
    ensures Shape(K, d.s)
    decreases limit - iteration
  {
    if iteration >= limit then Dispatched(s, c, true)
    else
      var d := Callback(K, s, c, iteration);
      if !d.ok then d
      else Dispatch(K, d.s, d.c.(completed := d.c.completed + 1), iteration + 1, limit)
  }

  // An invocation holding live acquisitions of the first n cells, whose views are the aliases.
  ghost predicate Holding(K: Kernel, base: int, s: Session, c: Context, n: nat)
  {
    && Sound(K, base, s) && Sane(K) && s.entered && !s.failed && n <= s.acquired && |c.aliases| == K.cells
    && forall i :: 0 <= i < n ==> c.aliases[i] == View(K, i) && s.cells[i].tag
  }

  lemma CallbackSound(K: Kernel, base: int, s: Session, c: Context, iteration: nat)
    requires Sound(K, base, s) && Sane(K) && InRange(K, s, c, iteration)
    ensures Sound(K, base, Callback(K, s, c, iteration).s)
  {
    hide Gate, Count, Tags, Sane;
    var i, pc := Index(c, iteration), 4 + 2 * iteration;
    var alias := c.aliases[i];
    GateSound(K, base, s, alias, 2, pc);
    GateSound(K, base, s, alias, 3, pc);
    GateSound(K, base, Gate(K, s, alias, 2, pc).s, alias, 3, pc + 1);
  }

  // The gate's invariant survives every dispatch.
  lemma {:induction false} DispatchSound(K: Kernel, base: int, s: Session, c: Context, iteration: nat, limit: nat)
    requires Sound(K, base, s) && Sane(K) && |c.aliases| == K.cells && K.cells > 0
    requires c.independent ==> limit <= K.cells
    ensures Sound(K, base, Dispatch(K, s, c, iteration, limit).s)
    decreases limit - iteration
  {
    hide Callback, Sane, Count, Tags;
    if iteration < limit {
      CallbackSound(K, base, s, c, iteration);
      var d := Callback(K, s, c, iteration);
      DispatchSound(K, base, d.s, d.c.(completed := d.c.completed + 1), iteration + 1, limit);
    }
  }

  // One alias retained by every callback: the first call releases it, the second is refused,
  // and no third is made, for every limit.
  lemma DispatchRetained(K: Kernel, base: int, s: Session, c: Context, limit: nat)
    requires Holding(K, base, s, c, 1) && !c.independent
    ensures var d := Dispatch(K, s, c, 0, limit);
      && (d.ok <==> limit <= 1) && (d.s.failed <==> limit > 1)
      && d.c == c.(calls := c.calls + (if limit < 2 then limit else 2),
                   completed := c.completed + (if limit < 1 then limit else 1))
      && d.s.acquired == s.acquired && d.s.readCount == s.readCount && d.s.cleanup == s.cleanup
      && d.s.released == s.released + (if limit < 1 then 0 else 1) && d.s.views == s.views
      && d.s.cells == if limit < 1 then s.cells else s.cells[0 := s.cells[0].(tag := false)]
  {
    hide Gate, Count, Tags, Sane;
    if limit > 0 {
      UseExactly(K, base, s, View(K, 0), 3, 4, 0);
      ReleaseKeeps(K, s, View(K, 0), 4);
      GateSound(K, base, s, View(K, 0), 3, 4);
      var t := Gate(K, s, View(K, 0), 3, 4).s;
      if limit > 1 { UseExactly(K, base, t, View(K, 0), 3, 6, 0); }
    }
  }

  lemma ReleaseKeeps(K: Kernel, s: Session, argument: Capability, pc: nat)
    requires Shape(K, s)
    ensures var t := Gate(K, s, argument, 3, pc).s;
      t.acquired == s.acquired && t.views == s.views && t.entered == s.entered && t.cleanup == s.cleanup
      && t.readCount == s.readCount
  {
  }

  lemma ReadKeeps(K: Kernel, s: Session, argument: Capability, pc: nat)
    requires Shape(K, s) && s.readCount + 1 < U32
    ensures var t := Gate(K, s, argument, 2, pc).s;
      t.acquired == s.acquired && t.views == s.views && t.entered == s.entered && t.cleanup == s.cleanup
      && t.released == s.released
      && t.readCount == s.readCount + (if t.failed then 0 else 1)
  {
  }

  // Two independent aliases: both callbacks release their own cell, and the second reads it first.
  lemma DispatchIndependent(K: Kernel, base: int, s: Session, c: Context)
    requires Holding(K, base, s, c, 2) && c.independent && s.readCount + 1 < U32
    ensures var d := Dispatch(K, s, c, 0, 2);
      && d.ok && !d.s.failed
      && d.c == c.(calls := c.calls + 2, completed := c.completed + 2, value := Widen(K.value) % U32)
      && d.s.acquired == s.acquired && d.s.readCount == s.readCount + 1 && d.s.cleanup == s.cleanup
      && d.s.released == s.released + 2 && d.s.views == s.views
      && !d.s.cells[0].tag && !d.s.cells[1].tag
  {
    hide Gate, Count, Tags, Sane;
    UseExactly(K, base, s, View(K, 0), 3, 4, 0);
    ReleaseKeeps(K, s, View(K, 0), 4);
    GateSound(K, base, s, View(K, 0), 3, 4);
    var t := Gate(K, s, View(K, 0), 3, 4).s;
    UseExactly(K, base, t, View(K, 1), 2, 6, 1);
    ReadKeeps(K, t, View(K, 1), 6);
    GateSound(K, base, t, View(K, 1), 2, 6);
    var u := Gate(K, t, View(K, 1), 2, 6).s;
    UseExactly(K, base, u, View(K, 1), 3, 7, 1);
    ReleaseKeeps(K, u, View(K, 1), 7);
    var d := Dispatch(K, s, c, 0, 2);
    assert Dispatch(K, s, c, 0, 2)
      == Dispatch(K, t, c.(calls := c.calls + 1, completed := c.completed + 1), 1, 2);
  }

  // ---- What the callbacks print ----

  // The kind, pc and cell of each line.
  function Brief(log: seq<Line>): (b: seq<(TraceKind, nat, nat)>)
    ensures |b| == |log|
  {
    seq(|log|, i requires 0 <= i < |log| => (log[i].kind, log[i].pc, log[i].id))
  }

  lemma UsePrints(K: Kernel, base: int, s: Session, i: nat, operation: nat, pc: nat)
    requires Sound(K, base, s) && Sane(K) && s.entered && !s.failed && i < s.acquired
    requires operation == 2 || operation == 3
    ensures var t := Gate(K, s, View(K, i), operation, pc).s;
      Brief(t.log) == Brief(s.log)
        + (if !s.cells[i].tag then [(Reject, pc, 0)]
           else if operation == 2 then [(Read, pc, i + 1)] else [(Clear, pc, i + 1), (Release, pc, i + 1)])
  {
    var k := FindView(s.views, View(K, i), 0, s.acquired);
    assert s.views[i] == View(K, i);
    if k < s.acquired { ViewsApart(K, i, k); }
    T.ConsumePrints(s, i, pc, false);
    hide Consume, Tags, Count, Sane;
    var t := Gate(K, s, View(K, i), operation, pc).s;
    assert t.log == s.log + t.log[|s.log|..];
  }

  // The retained alias is released at pc 4 and refused at pc 6.
  lemma RetainedPrints(K: Kernel, base: int, s: Session, c: Context, limit: nat)
    requires Holding(K, base, s, c, 1) && !c.independent
    ensures Brief(Dispatch(K, s, c, 0, limit).s.log) == Brief(s.log)
      + (if limit >= 1 then [(Clear, 4, 1), (Release, 4, 1)] else []) + (if limit >= 2 then [(Reject, 6, 0)] else [])
  {
    hide Gate, Count, Tags, Sane;
    if limit > 0 {
      UseExactly(K, base, s, View(K, 0), 3, 4, 0);
      UsePrints(K, base, s, 0, 3, 4);
      ReleaseKeeps(K, s, View(K, 0), 4);
      GateSound(K, base, s, View(K, 0), 3, 4);
      var t := Gate(K, s, View(K, 0), 3, 4).s;
      if limit > 1 {
        UseExactly(K, base, t, View(K, 0), 3, 6, 0);
        UsePrints(K, base, t, 0, 3, 6);
      }
    }
  }

  // The independent aliases are released at pc 4, and read at pc 6 and released at pc 7.
  lemma IndependentPrints(K: Kernel, base: int, s: Session, c: Context)
    requires Holding(K, base, s, c, 2) && c.independent && s.readCount + 1 < U32
    ensures Brief(Dispatch(K, s, c, 0, 2).s.log) == Brief(s.log)
      + [(Clear, 4, 1), (Release, 4, 1), (Read, 6, 2), (Clear, 7, 2), (Release, 7, 2)]
  {
    hide Gate, Count, Tags, Sane;
    UseExactly(K, base, s, View(K, 0), 3, 4, 0);
    UsePrints(K, base, s, 0, 3, 4);
    ReleaseKeeps(K, s, View(K, 0), 4);
    GateSound(K, base, s, View(K, 0), 3, 4);
    var t := Gate(K, s, View(K, 0), 3, 4).s;
    UseExactly(K, base, t, View(K, 1), 2, 6, 1);
    UsePrints(K, base, t, 1, 2, 6);
    ReadKeeps(K, t, View(K, 1), 6);
    GateSound(K, base, t, View(K, 1), 2, 6);
    var u := Gate(K, t, View(K, 1), 2, 6).s;
    UseExactly(K, base, u, View(K, 1), 3, 7, 1);
    UsePrints(K, base, u, 1, 3, 7);
    assert Dispatch(K, s, c, 0, 2)
      == Dispatch(K, t, c.(calls := c.calls + 1, completed := c.completed + 1), 1, 2);
  }

  // ---- As it runs ----

  class CallbackContext {
    const aliases: array<Capability>
    var calls: nat
    var completed: nat
    var value: nat
    const independent: bool

    constructor (K: Kernel, independent: bool)
      ensures fresh(aliases) && View() == Context(seq(K.cells, _ => NULL), 0, 0, 0, independent)
    {
      this.independent := independent;
      aliases := new Capability[K.cells](_ => NULL);
      calls, completed, value := 0, 0, 0;
    }

    ghost function View(): Context
      reads this, aliases
    {
      Context(aliases[..], calls, completed, value, independent)
    }
  }

  // An active invocation whose buffers are its own.
  ghost predicate Ready(K: Kernel, cpu: Cpu, o: Provider, ctx: CallbackContext)
    reads cpu, cpu.Frame(), o
  {
    && cpu.active != null && Shape(K, cpu.active.With(o)) && cpu.active.cells != cpu.active.views
    && ctx.aliases.Length == K.cells && ctx.aliases != cpu.active.cells && ctx.aliases != cpu.active.views
  }

  method RunCallback(K: Kernel, cpu: Cpu, o: Provider, ctx: CallbackContext, iteration: nat) returns (ok: bool)
    requires Ready(K, cpu, o, ctx) && InRange(K, cpu.active.With(o), ctx.View(), iteration)
    modifies cpu.Frame(), o, ctx
    ensures cpu.active == old(cpu.active) && Ready(K, cpu, o, ctx)
    ensures Dispatched(cpu.active.With(o), ctx.View(), ok)
      == Callback(K, old(cpu.active.With(o)), old(ctx.View()), iteration)
  {
    hide Gate, Fail;
    var s, i, pc := cpu.active, if ctx.independent then iteration else 0, 4 + 2 * iteration;
    var alias := ctx.aliases[i];
    var canonical := alias == s.views[i];
    ctx.calls := ctx.calls + 1;
    GateShaped(K, s.With(o), alias, pc);
    if !canonical || !alias.tag {
      s.Reject(o, pc);
      return false;
    }
    if ctx.independent && iteration == 1 {
      var value := GateImpl(K, cpu, o, alias, 2, pc);
      if s.failed { return false; }
      ctx.value := value.address % U32;
      pc := pc + 1;
      GateShaped(K, s.With(o), alias, pc);
    }
    var _ := GateImpl(K, cpu, o, alias, 3, pc);
    return !s.failed;
  }

  lemma GateShaped(K: Kernel, s: Session, argument: Capability, pc: nat)
    requires Shape(K, s)
    ensures Shape(K, Gate(K, s, argument, 2, pc).s) && Shape(K, Gate(K, s, argument, 3, pc).s)
    ensures Shape(K, Fail(s, pc))
  {
  }

  method DispatchCallbacks(K: Kernel, cpu: Cpu, o: Provider, ctx: CallbackContext, limit: nat) returns (ok: bool)
    requires Ready(K, cpu, o, ctx) && K.cells > 0 && (ctx.independent ==> limit <= K.cells)
    modifies cpu.Frame(), o, ctx
    ensures cpu.active == old(cpu.active) && Ready(K, cpu, o, ctx)
    ensures Dispatched(cpu.active.With(o), ctx.View(), ok)
      == Dispatch(K, old(cpu.active.With(o)), old(ctx.View()), 0, limit)
  {
    hide Callback;
    var s := cpu.active;
    ghost var final := Dispatch(K, s.With(o), ctx.View(), 0, limit);
    var iteration := 0;
    while iteration < limit
      invariant iteration <= limit && cpu.active == s && Ready(K, cpu, o, ctx)
      invariant Dispatch(K, s.With(o), ctx.View(), iteration, limit) == final
    {
      var continues := RunCallback(K, cpu, o, ctx, iteration);
      if !continues { return false; }
      ctx.completed := ctx.completed + 1;
      iteration := iteration + 1;
    }
    ok := true;
  }

  // An acquisition of the next cell succeeds exactly when its two capabilities can be built.
  lemma AcquireExactly(K: Kernel, base: int, s: Session, pc: nat)
    requires Sound(K, base, s) && Sane(K) && s.entered && !s.failed && s.acquired < K.cells
    ensures var r := Gate(K, s, Scalar(0), 1, pc);
      if !Buildable(K, s.acquired) then r == Rejected(s, pc)
      else r == Reply(Take(K, s, View(K, s.acquired), Object(K), pc), View(K, s.acquired))
  {
    hide Take, Sane, Count, Tags;
    ExactMeans(K, K.cellAddress(s.acquired), K.cellBytes);
    ExactMeans(K, K.objectAddress, K.objectBytes);
  }

  // The check's acquisitions: aliases of the first cells, or a failed construction.
  method AcquireAliases(K: Kernel, cpu: Cpu, o: Provider, ctx: CallbackContext, count: nat) returns (ok: bool)
    requires Ready(K, cpu, o, ctx) && Sane(K) && count <= K.cells
    requires cpu.active.With(o) == Fresh(K, o.refs).(entered := true)
    modifies cpu.Frame(), o, ctx.aliases
    ensures cpu.active == old(cpu.active) && Ready(K, cpu, o, ctx)
    ensures Sound(K, old(o.refs), cpu.active.With(o))
    ensures ok <==> forall i :: 0 <= i < count ==> Buildable(K, i)
    ensures ok ==> Holding(K, old(o.refs), cpu.active.With(o), ctx.View(), count)
    ensures ok ==> var s := cpu.active.With(o);
      s.acquired == count && s.released == s.readCount == s.cleanup == 0
  {
    hide Gate, Count, Tags, Sane, Buildable;
    ghost var base := o.refs;
    var s := cpu.active;
    EnteredSound(K, base);
    var i := 0;
    while i < count
      invariant i <= count && cpu.active == s && Ready(K, cpu, o, ctx)
      invariant Holding(K, base, s.With(o), ctx.View(), i)
      invariant s.acquired == i && s.released == s.readCount == s.cleanup == 0
      invariant forall j :: 0 <= j < i ==> Buildable(K, j)
    {
      ghost var before := s.With(o);
      AcquireExactly(K, base, before, i);
      if Buildable(K, i) { TakeSound(K, base, before, i); } else { RejectSound(K, base, before, i); }
      var alias := GateImpl(K, cpu, o, Scalar(0), 1, i);
      ctx.aliases[i] := alias;
      if s.failed || !alias.tag { return false; }
      i := i + 1;
    }
    ok := true;
  }

  lemma EnteredSound(K: Kernel, base: int)
    ensures Sound(K, base, Fresh(K, base).(entered := true))
  {
    FreshSound(K, base);
  }

  lemma RejectSound(K: Kernel, base: int, s: Session, pc: nat)
    requires Sound(K, base, s)
    ensures Sound(K, base, Fail(s, pc))
  {
    hide Count, Tags;
  }

  // Teardown consumes whatever still holds authority, so the provider is back at its baseline.
  method TearDown(K: Kernel, s: Invocation, o: Provider, ghost base: int)
    requires Sound(K, base, s.With(o)) && s.cells != s.views
    modifies s, s.cells, o
    ensures o.refs == base && s.cells.Length == s.views.Length == K.cells
  {
    hide Consume, Count, Tags;
    for i := 0 to s.cells.Length
      invariant Sound(K, base, s.With(o)) && forall j :: 0 <= j < i ==> !s.cells[j].tag
    {
      ghost var before := s.With(o);
      if s.cells[i].tag {
        ConsumeSound(K, base, before, i, U64 - 1, true);
        ConsumeOnly(before, i);
        s.ConsumeCell(o, i, U64 - 1, true);
      }
    }
    NoneLeft(s.With(o));
  }

  lemma ConsumeOnly(s: Session, i: nat)
    requires i < |s.cells|
    ensures Consume(s, i, U64 - 1, true).cells == s.cells[i := s.cells[i].(tag := false)]
  {
  }

  // What a scenario's observations must be.
  predicate Expected(s: Session, c: Context, dispatched: bool)
  {
    && dispatched == c.independent && s.failed == !c.independent
    && c.calls == 2 && c.completed == (if c.independent then 2 else 1)
    && c.value == (if c.independent then 42 else 0)
    && s.acquired == s.released == (if c.independent then 2 else 1)
    && s.readCount == (if c.independent then 1 else 0) && s.cleanup == 0 && s.refs == 1
  }

  // The aliases stay intact and canonical while the private cells have lost their authority.
  ghost predicate AliasesIntact(s: Session, c: Context, count: nat)
  {
    count <= |c.aliases| && count <= |s.views| && count <= |s.cells|
    && forall i :: 0 <= i < count ==> c.aliases[i].tag && c.aliases[i] == s.views[i] && !s.cells[i].tag
  }

  lemma ScenarioObserved(K: Kernel, s: Session, c: Context)
    requires Holding(K, 1, s, c, if c.independent then 2 else 1) && K.cells == 2
    requires s.acquired == (if c.independent then 2 else 1) && s.released == s.readCount == s.cleanup == 0
    requires c.calls == c.completed == c.value == 0
    ensures var d := Dispatch(K, s, c, 0, if c.independent then 2 else 3);
      && Sound(K, 1, d.s) && AliasesIntact(d.s, d.c, if c.independent then 2 else 1)
      && d.c.independent == c.independent
      && (Expected(d.s, d.c, d.ok) <==> (c.independent ==> K.value == 42))
  {
    hide Dispatch, Count, Tags, Sane;
    DispatchSound(K, 1, s, c, 0, if c.independent then 2 else 3);
    if c.independent { DispatchIndependent(K, 1, s, c); } else { DispatchRetained(K, 1, s, c, 3); }
    WidenIs42(K);
  }

  // Dispatch, then the check's observations.
  method Observe(K: Kernel, cpu: Cpu, o: Provider, ctx: CallbackContext, count: nat) returns (pass: bool)
    requires Ready(K, cpu, o, ctx) && K.cells == 2 && count == (if ctx.independent then 2 else 1)
    requires Holding(K, 1, cpu.active.With(o), ctx.View(), count) && cpu.active.acquired == count
    requires cpu.active.released == cpu.active.readCount == cpu.active.cleanup == 0
    requires ctx.calls == ctx.completed == ctx.value == 0
    modifies cpu.Frame(), o, ctx
    ensures cpu.active == old(cpu.active) && Ready(K, cpu, o, ctx) && Sound(K, 1, cpu.active.With(o))
    ensures pass <==> (ctx.independent ==> K.value == 42)
  {
    hide Dispatch, Sound, Holding;
    var s := cpu.active;
    ScenarioObserved(K, s.With(o), ctx.View());
    var dispatched := DispatchCallbacks(K, cpu, o, ctx, if ctx.independent then 2 else 3);
    pass := dispatched == ctx.independent && s.failed == !ctx.independent
      && ctx.calls == 2 && ctx.completed == (if ctx.independent then 2 else 1)
      && ctx.value == (if ctx.independent then 42 else 0)
      && s.acquired == count && s.released == count
      && s.readCount == (if ctx.independent then 1 else 0) && s.cleanup == 0 && o.refs == 1;
    assert pass == Expected(s.With(o), ctx.View(), dispatched);
    ghost var expected := pass;
    for index := 0 to count
      invariant pass == expected
    {
      pass := pass && ctx.aliases[index].tag && ctx.aliases[index] == s.views[index] && !s.cells[index].tag;
    }
  }

  // cbpf_callback_check: on an idle CPU at the baseline it passes exactly when the capabilities
  // it needs can be built and, for the scenario that reads, the object holds 42.
  method CallbackCheck(K: Kernel, cpu: Cpu, o: Provider, independent: bool) returns (pass: bool)
    requires Sane(K) && K.cells == 2
    modifies cpu, o
    ensures cpu.active == old(cpu.active) && o.refs == old(o.refs)
    ensures pass <==>
      && old(cpu.active) == null && old(o.refs) == 1
      && (forall i :: 0 <= i < (if independent then 2 else 1) ==> Buildable(K, i))
      && (independent ==> K.value == 42)
  {
    if cpu.active != null || o.refs != 1 { return false; }
    hide Count, Tags, Sane, Buildable, Sound;
    var count := if independent then 2 else 1;
    var s := new Invocation(K);
    assert s.With(o) == Fresh(K, 1);
    s.entered := true;
    var ctx := new CallbackContext(K, independent);
    cpu.active := s;
    pass := AcquireAliases(K, cpu, o, ctx, count);
    if pass { pass := Observe(K, cpu, o, ctx, count); }
    TearDown(K, s, o, 1);
    Scrub(K, s);
    cpu.active := null;
  }

  lemma WidenIs42(K: Kernel)
    requires Sane(K)
    ensures Widen(K.value) % U32 == 42 <==> K.value == 42
  {
  }
}
