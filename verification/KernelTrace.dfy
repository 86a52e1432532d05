/** What the kernel path prints: the lines of every call, of the wrapper's cleanup and of its end,
    told from the calls' outcomes. */
module KernelTrace {
  import opened Capabilities
  import opened Common
  import opened KernelMachine
  import opened KernelOwnership

  // The line shows the session's counters, count and tags.
  predicate Pictures(l: Line, s: Session)
  {
    && l.seqno == s.sequence && l.acquired == s.acquired && l.released == s.released && l.readCount == s.readCount
    && l.cleanup == s.cleanup && l.refs == s.refs && l.tags == Tags(s.cells)
  }

  // One line, about cell id, printed last.
  ghost predicate Prints(s: Session, t: Session, kind: TraceKind, pc: nat, id: nat)
  {
    && |t.log| == |s.log| + 1 && s.log <= t.log
    && var l := t.log[|s.log|]; l.kind == kind && l.pc == pc && l.id == id && Pictures(l, t)
  }

  // The two lines of a consumption: the cell is already cut while the counts still stand, then
  // the counts have moved too.
  ghost predicate PrintsTwice(s: Session, t: Session, kind: TraceKind, pc: nat, i: nat)
    requires i < |s.cells|
  {
    && |t.log| == |s.log| + 2 && s.log <= t.log
    && var (cut, l) := (t.log[|s.log|], t.log[|s.log| + 1]);
    && cut.kind == Clear && cut.pc == pc && cut.id == i + 1 && cut.seqno == (s.sequence + 1) % U32
    && cut.refs == s.refs && cut.acquired == s.acquired && cut.released == s.released
    && cut.readCount == s.readCount && cut.cleanup == s.cleanup && cut.tags == Tags(s.cells)[i := false]
    && l.kind == kind && l.pc == pc && l.id == i + 1 && Pictures(l, t)
  }

  lemma ConsumePrints(s: Session, i: nat, pc: nat, cleanup: bool)
    requires i < |s.cells|
    ensures PrintsTwice(s, Consume(s, i, pc, cleanup), if cleanup then Cleanup else Release, pc, i)
  {
    assert Tags(s.cells[i := s.cells[i].(tag := false)]) == Tags(s.cells)[i := false];
  }

  // A call prints what came of it, at its own pc: a rejection, the provider's NULL, the new
  // identity, the identity read, or the two lines of the identity released.
  lemma CallPrints(K: Kernel, s: Session, argument: Capability, operation: nat, pc: nat)
    requires Shape(K, s)
    ensures var r := Gate(K, s, argument, operation, pc);
      if r.s.failed then Prints(s, r.s, Reject, pc, 0)
      else if operation == 1 then
        if r.s.acquired == s.acquired then r.value == Scalar(0) && Prints(s, r.s, Null, pc, 0)
        else r.s.acquired == s.acquired + 1 && Prints(s, r.s, Acquired, pc, r.s.acquired)
      else exists i ::
        && 0 <= i < s.acquired && s.views[i] == argument
        && if operation == 2 then Prints(s, r.s, Read, pc, i + 1)
           else operation == 3 && PrintsTwice(s, r.s, Release, pc, i)
  {
    if s.entered && !s.failed && (operation == 2 || operation == 3) {
      var i := FindView(s.views, argument, 0, s.acquired);
      if i < s.acquired && s.cells[i].tag {
        assert s.views[i] == argument;
        ConsumePrints(s, i, pc, false);
      }
    }
    hide Tags, Consume;
  }

  // ---- Cleanup ----

  // The lines of a cleanup of the cells from i to n: a cut and a cleanup for each that still held
  // authority, in order, and for no other.
  ghost predicate Sweeps(added: seq<Line>, cells: seq<Capability>, i: nat, n: nat)
    requires n <= |cells|
    decreases n - i
  {
    if i >= n then added == []
    else if !cells[i].tag then Sweeps(added, cells, i + 1, n)
    else |added| >= 2 && Swept(added[0], added[1], i + 1) && Sweeps(added[2..], cells, i + 1, n)
  }

  predicate Swept(cut: Line, l: Line, id: nat)
  {
    cut.kind == Clear && l.kind == Cleanup && cut.id == l.id == id && cut.pc == l.pc == U64 - 1
  }

  lemma {:induction false} SweepsSame(added: seq<Line>, a: seq<Capability>, b: seq<Capability>, i: nat, n: nat)
    requires n <= |a| && n <= |b| && forall j :: i <= j < n ==> a[j].tag == b[j].tag
    ensures Sweeps(added, a, i, n) <==> Sweeps(added, b, i, n)
    decreases n - i
  {
    if i < n {
      SweepsSame(if a[i].tag && |added| >= 2 then added[2..] else added, a, b, i + 1, n);
    }
  }

  lemma {:induction false} CleanupPrints(K: Kernel, s: Session, i: nat)
    requires Shape(K, s)
    ensures var t := CleanupAll(K, s, i); s.log <= t.log && Sweeps(t.log[|s.log|..], s.cells, i, s.acquired)
    decreases s.acquired - i
  {
    if i < s.acquired {
      var c := if s.cells[i].tag then Consume(s, i, U64 - 1, true) else s;
      if s.cells[i].tag { ConsumePrints(s, i, U64 - 1, true); }
      ConsumeTags(s, i);
      hide Consume, Tags;
      CleanupPrints(K, c, i + 1);
      var t := CleanupAll(K, s, i);
      SweepsSame(t.log[|c.log|..], c.cells, s.cells, i + 1, s.acquired);
      if s.cells[i].tag { assert t.log[|s.log|..][2..] == t.log[|c.log|..]; }
    }
  }

  lemma ConsumeTags(s: Session, i: nat)
    requires i < |s.cells|
    ensures var c := Consume(s, i, U64 - 1, true);
      && |c.cells| == |s.cells| && |c.views| == |s.views| && c.acquired == s.acquired
      && forall j :: 0 <= j < |s.cells| && j != i ==> c.cells[j] == s.cells[j]
  {
  }

  // ---- The whole invocation ----

  // No line of this kind.
  ghost predicate Without(log: seq<Line>, kind: TraceKind)
  {
    forall k :: 0 <= k < |log| ==> log[k].kind != kind
  }

  // While the program runs: nothing closes the log, and a line rejects exactly if it failed.
  ghost predicate Open(s: Session)
  {
    Without(s.log, Exit) && Without(s.log, Failed) && (s.failed <==> !Without(s.log, Reject))
  }

  lemma CallKeepsOpen(K: Kernel, s: Session, call: Call)
    requires Shape(K, s) && Open(s)
    ensures Open(Perform(K, s, call)) && s.log <= Perform(K, s, call).log
  {
    if call.Gated? {
      CallPrints(K, s, call.argument, call.operation, call.pc);
      if s.failed { FailureStays(K, s, call); }
      hide Gate, Pictures, Tags;
      var t := Gate(K, s, call.argument, call.operation, call.pc).s;
      assert forall k :: 0 <= k < |s.log| ==> t.log[k] == s.log[k];
    }
  }

  lemma FailureStays(K: Kernel, s: Session, call: Call)
    requires Shape(K, s) && call.Gated? && s.failed
    ensures Gate(K, s, call.argument, call.operation, call.pc).s.failed
  {
  }

  lemma {:induction false} RunKeepsOpen(K: Kernel, s: Session, calls: seq<Call>)
    requires Shape(K, s) && Open(s)
    ensures Open(PerformAll(K, s, calls)) && s.log <= PerformAll(K, s, calls).log
    decreases |calls|
  {
    hide Perform, Open;
    if calls != [] {
      CallKeepsOpen(K, s, calls[0]);
      RunKeepsOpen(K, Perform(K, s, calls[0]), calls[1..]);
    }
  }

  lemma {:induction false} SweepsKinds(added: seq<Line>, cells: seq<Capability>, i: nat, n: nat)
    requires n <= |cells| && Sweeps(added, cells, i, n)
    ensures forall k :: 0 <= k < |added| ==> added[k].kind == Clear || added[k].kind == Cleanup
    decreases n - i
  {
    if i < n {
      SweepsKinds(if cells[i].tag then added[2..] else added, cells, i + 1, n);
      if cells[i].tag { assert added == [added[0], added[1]] + added[2..]; }
    }
  }

  // How a log ends: one line, of the kind the outcome calls for, and no other like it. The
  // invocation failed exactly if a call was rejected or the program never entered.
  ghost predicate Ends(log: seq<Line>, entered: bool, failed: bool)
  {
    && log != []
    && var (rest, l) := (log[..|log| - 1], log[|log| - 1]);
    && l.kind == (if failed then Failed else Exit) && l.pc == U64 - 1 && l.id == 0
    && Without(rest, Exit) && Without(rest, Failed) && (failed <==> !Without(rest, Reject) || !entered)
  }

  lemma SweptOpen(s: Session, c: Session)
    requires Open(s) && s.acquired <= |s.cells| && s.log <= c.log && c.failed == s.failed
    requires Sweeps(c.log[|s.log|..], s.cells, 0, s.acquired)
    ensures Open(c)
  {
    var added := c.log[|s.log|..];
    SweepsKinds(added, s.cells, 0, s.acquired);
    assert c.log == s.log + added;
    hide Sweeps;
    forall kind: TraceKind | kind != Clear && kind != Cleanup ensures Without(c.log, kind) <==> Without(s.log, kind) {
      WithoutConcat(s.log, added, kind);
    }
  }

  lemma WithoutConcat(a: seq<Line>, b: seq<Line>, kind: TraceKind)
    ensures Without(a + b, kind) <==> Without(a, kind) && Without(b, kind)
  {
    forall k | 0 <= k < |a| ensures (a + b)[k] == a[k] {
    }
    forall k | 0 <= k < |b| ensures (a + b)[|a| + k] == b[k] {
    }
  }

  // The end of an invocation whose cleanup has reached c.
  lemma FinishPrints(K: Kernel, s: Session, c: Session)
    requires Shape(K, s) && c == CleanupAll(K, s, 0) && Open(c) && c.acquired == c.released && c.entered == s.entered
    ensures var f := Finish(K, s);
      && |f.log| == |c.log| + 1 && c.log <= f.log && Ends(f.log, f.entered, f.failed) && f.entered == s.entered
      && var l := f.log[|c.log|]; l.refs == c.refs && l.tags == Tags(c.cells)
  {
    hide CleanupAll, Tags;
    var f := Finish(K, s);
    assert f.log[..|f.log| - 1] == c.log;
  }

  // Every invocation prints its calls' lines, then its cleanup's, then how it ended.
  lemma InvokePrints(K: Kernel, base: int, calls: seq<Call>, result: nat) returns (swept: seq<Line>, last: Line)
    requires Sane(K)
    ensures var (s, ran) := (Invoke(K, base, calls, result).0, PerformAll(K, Fresh(K, base), calls));
      && s.log == ran.log + swept + [last] && Sweeps(swept, ran.cells, 0, ran.acquired)
      && Ends(s.log, s.entered, s.failed) && s.entered == ran.entered
      && last.refs == base && last.tags == seq(K.cells, _ => false)
  {
    var start := Fresh(K, base);
    var ran := PerformAll(K, start, calls);
    FreshSound(K, base);
    hide PerformAll, CleanupAll, Sweeps, Count, Sane, Sound, Logged, Ends, Finish, Numbered, History, Tags;
    RunKeepsOpen(K, start, calls);
    EveryCallSound(K, base, start, calls);
    CleanupSound(K, base, ran, 0);
    CleanupPrints(K, ran, 0);
    var c := CleanupAll(K, ran, 0);
    swept := c.log[|ran.log|..];
    SweptOpen(ran, c);
    Released(K, base, c);
    FinishPrints(K, ran, c);
    last := Finish(K, ran).log[|c.log|];
    assert c.log == ran.log + swept;
  }

  lemma Released(K: Kernel, base: int, c: Session)
    requires Sound(K, base, c) && forall j :: 0 <= j < K.cells ==> !c.cells[j].tag
    ensures c.acquired == c.released && c.refs == base && Tags(c.cells) == seq(K.cells, _ => false)
  {
    NoneLeft(c);
    hide Count;
  }
}
