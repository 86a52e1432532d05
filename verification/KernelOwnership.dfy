/** What the kernel gate keeps over any sequence of calls, whatever their arguments, and how the
    invocation wrapper ends: balanced, at the provider's baseline, with failure reported as 0. */
module KernelOwnership {
  import opened Capabilities
  import opened Common
  import opened KernelMachine

  // How many lines of one kind name the cell id.
  function Tally(log: seq<Line>, kind: TraceKind, id: nat): nat
  {
    if log == [] then 0
    else
      var l := log[|log| - 1];
      Tally(log[..|log| - 1], kind, id) + (if l.kind == kind && l.id == id then 1 else 0)
  }

  lemma TallyPush(log: seq<Line>, l: Line, kind: TraceKind, id: nat)
    ensures Tally(log + [l], kind, id) == Tally(log, kind, id) + (if l.kind == kind && l.id == id then 1 else 0)
  {
    assert (log + [l])[..|log|] == log;
  }

  // Counts, authority and views agree: one reference and one tagged cell for each acquisition
  // not yet released, and the published views are the canonical ones.
  ghost predicate Sound(K: Kernel, base: int, s: Session)
  {
    && Shape(K, s)
    && s.refs == base + s.acquired - s.released
    && Count(Tags(s.cells)) == s.acquired - s.released
    && s.cleanup <= s.released
    && (!s.entered ==> s.acquired == 0)
    && (forall i :: 0 <= i < s.acquired ==> s.views[i] == View(K, i) && s.cells[i].(tag := true) == Object(K))
    && (forall i :: s.acquired <= i < K.cells ==> s.views[i] == NULL && s.cells[i] == NULL)
  }

  // A line balances too, except that between the cut and the count's decrement a cleared cell
  // still holds its reference.
  ghost predicate LineSound(base: int, l: Line)
  {
    && l.refs == base + l.acquired - l.released
    && Count(l.tags) == l.acquired - l.released - (if l.kind.Clear? then 1 else 0)
  }

  // The log is numbered in order, every line balances, and each cell's history in it is at most
  // one acquisition, then one cut, then one release or cleanup.
  ghost predicate Logged(base: int, s: Session)
  {
    && Numbered(base, s.log, s.sequence)
    && forall i :: 0 <= i < |s.cells| ==> History(s.log, i < s.acquired, s.cells[i].tag, i + 1)
  }

  ghost predicate Numbered(base: int, log: seq<Line>, sequence: nat)
  {
    && sequence == |log| % U32
    && forall k :: 0 <= k < |log| ==> log[k].seqno == (k + 1) % U32 && LineSound(base, log[k])
  }

  ghost predicate History(log: seq<Line>, used: bool, tag: bool, id: nat)
  {
    var cut := if used && !tag then 1 else 0;
    && Tally(log, Acquired, id) == (if used then 1 else 0)
    && Tally(log, Clear, id) == cut
    && Tally(log, Release, id) + Tally(log, Cleanup, id) == cut
  }

  // ---- One line ----

  lemma NumberedPush(base: int, log: seq<Line>, sequence: nat, l: Line)
    requires Numbered(base, log, sequence) && LineSound(base, l) && l.seqno == (sequence + 1) % U32
    ensures Numbered(base, log + [l], l.seqno)
  {
    hide LineSound;
  }

  // A line that is neither an acquisition nor part of a release leaves every history alone.
  lemma HistoryPush(log: seq<Line>, used: bool, tag: bool, id: nat, l: Line)
    requires History(log, used, tag, id)
    requires l.id != id || (l.kind != Acquired && l.kind != Clear && l.kind != Release && l.kind != Cleanup)
    ensures History(log + [l], used, tag, id)
  {
    TallyPush(log, l, Acquired, id);
    TallyPush(log, l, Clear, id);
    TallyPush(log, l, Release, id);
    TallyPush(log, l, Cleanup, id);
  }

  lemma TraceLogged(base: int, s: Session, kind: TraceKind, pc: nat, id: nat)
    requires Logged(base, s) && kind != Acquired && kind != Clear && kind != Release && kind != Cleanup
    requires s.refs == base + s.acquired - s.released && Count(Tags(s.cells)) == s.acquired - s.released
    ensures Logged(base, Trace(s, kind, pc, id))
  {
    var t := Trace(s, kind, pc, id);
    var l := t.log[|s.log|];
    NumberedPush(base, s.log, s.sequence, l);
    hide Numbered, History, Count, Tags;
    forall i | 0 <= i < |s.cells| ensures History(t.log, i < t.acquired, t.cells[i].tag, i + 1) {
      HistoryPush(s.log, i < s.acquired, s.cells[i].tag, i + 1, l);
    }
  }

  lemma TagsUpdate(cells: seq<Capability>, i: nat, c: Capability)
    requires i < |cells|
    ensures Count(Tags(cells[i := c]))
      == Count(Tags(cells)) - (if cells[i].tag then 1 else 0) + (if c.tag then 1 else 0)
  {
    assert Tags(cells[i := c]) == Tags(cells)[i := c.tag];
    CountUpdate(Tags(cells), i, c.tag);
  }

  // ---- Acquisition ----

  lemma TakeSound(K: Kernel, base: int, s: Session, pc: nat)
    requires Sound(K, base, s) && s.acquired < K.cells && s.entered
    ensures Sound(K, base, Take(K, s, View(K, s.acquired), Object(K), pc))
  {
    TagsUpdate(s.cells, s.acquired, Object(K));
  }

  lemma TakeLogged(K: Kernel, base: int, s: Session, pc: nat)
    requires Sound(K, base, s) && Logged(base, s) && s.acquired < K.cells
    ensures Logged(base, Take(K, s, View(K, s.acquired), Object(K), pc))
  {
    var n := s.acquired;
    var t := Take(K, s, View(K, n), Object(K), pc);
    TagsUpdate(s.cells, n, Object(K));
    var l := t.log[|s.log|];
    NumberedPush(base, s.log, s.sequence, l);
    TakeHistory(s.log, s.cells[n].tag, l);
    hide Numbered, History, Count, Tags;
    forall i | 0 <= i < |s.cells| ensures History(t.log, i < t.acquired, t.cells[i].tag, i + 1) {
      assert History(s.log, i < s.acquired, s.cells[i].tag, i + 1);
      if i != n { HistoryPush(s.log, i < s.acquired, s.cells[i].tag, i + 1, l); }
    }
  }

  lemma TakeHistory(log: seq<Line>, tag: bool, l: Line)
    requires l.kind.Acquired?
    ensures History(log, false, tag, l.id) ==> History(log + [l], true, true, l.id)
  {
    TallyPush(log, l, Acquired, l.id);
    TallyPush(log, l, Clear, l.id);
    TallyPush(log, l, Release, l.id);
    TallyPush(log, l, Cleanup, l.id);
  }

  // ---- Release ----

  lemma ConsumeSound(K: Kernel, base: int, s: Session, i: nat, pc: nat, cleanup: bool)
    requires Sound(K, base, s) && i < s.acquired && s.cells[i].tag
    ensures Sound(K, base, Consume(s, i, pc, cleanup))
  {
    TagsUpdate(s.cells, i, s.cells[i].(tag := false));
  }

  // The two lines of a release, around the decrement.
  lemma ConsumeLines(K: Kernel, base: int, s: Session, i: nat, pc: nat, cleanup: bool) returns (a: Line, b: Line)
    requires Sound(K, base, s) && Logged(base, s) && i < s.acquired && s.cells[i].tag
    ensures a.kind == Clear && (b.kind == Release || b.kind == Cleanup) && a.id == b.id == i + 1
    ensures var t := Consume(s, i, pc, cleanup);
      t.log == s.log + [a] + [b] && Numbered(base, t.log, t.sequence)
  {
    var cut, t := Cut(s, i, pc), Consume(s, i, pc, cleanup);
    TagsUpdate(s.cells, i, s.cells[i].(tag := false));
    a, b := cut.log[|s.log|], t.log[|s.log| + 1];
    hide Numbered, History, Count, Tags;
    NumberedPush(base, s.log, s.sequence, a);
    NumberedPush(base, cut.log, cut.sequence, b);
  }

  lemma ConsumeLogged(K: Kernel, base: int, s: Session, i: nat, pc: nat, cleanup: bool)
    requires Sound(K, base, s) && Logged(base, s) && i < s.acquired && s.cells[i].tag
    ensures Logged(base, Consume(s, i, pc, cleanup))
  {
    hide Numbered, History, Count, Tags;
    var t := Consume(s, i, pc, cleanup);
    var a, b := ConsumeLines(K, base, s, i, pc, cleanup);
    forall j | 0 <= j < |s.cells| ensures History(t.log, j < t.acquired, t.cells[j].tag, j + 1) {
      assert History(s.log, j < s.acquired, s.cells[j].tag, j + 1);
      if j != i {
        HistoryPush(s.log, j < s.acquired, s.cells[j].tag, j + 1, a);
        HistoryPush(s.log + [a], j < s.acquired, s.cells[j].tag, j + 1, b);
      } else {
        ConsumeHistory(s.log, a, b);
      }
    }
  }

  lemma ConsumeHistory(log: seq<Line>, a: Line, b: Line)
    requires a.kind == Clear && (b.kind == Release || b.kind == Cleanup) && a.id == b.id
    requires History(log, true, true, a.id)
    ensures History(log + [a] + [b], true, false, a.id)
  {
    var id := a.id;
    TallyPush(log, a, Acquired, id);
    TallyPush(log + [a], b, Acquired, id);
    TallyPush(log, a, Clear, id);
    TallyPush(log + [a], b, Clear, id);
    TallyPush(log, a, Release, id);
    TallyPush(log + [a], b, Release, id);
    TallyPush(log, a, Cleanup, id);
    TallyPush(log + [a], b, Cleanup, id);
  }

  // ---- Every call ----

  lemma GateSound(K: Kernel, base: int, s: Session, argument: Capability, operation: nat, pc: nat)
    requires Sound(K, base, s) && Sane(K)
    ensures Sound(K, base, Gate(K, s, argument, operation, pc).s)
  {
    hide Take, Consume, Count, Tags, Sane;
    if s.entered && !s.failed {
      if operation == 1 && s.acquired < K.cells {
        TakeSound(K, base, s, pc);
        ExactMeans(K, K.cellAddress(s.acquired), K.cellBytes);
        ExactMeans(K, K.objectAddress, K.objectBytes);
      } else if operation == 3 {
        var i := FindView(s.views, argument, 0, s.acquired);
        if i < s.acquired && s.cells[i].tag { ConsumeSound(K, base, s, i, pc, false); }
      }
    }
  }

  lemma GateLogged(K: Kernel, base: int, s: Session, argument: Capability, operation: nat, pc: nat)
    requires Sound(K, base, s) && Logged(base, s) && Sane(K)
    ensures Logged(base, Gate(K, s, argument, operation, pc).s)
  {
    hide Take, Consume, Count, Tags, Sane, Trace, Numbered, History;
    TraceLogged(base, s.(failed := true), Reject, pc, 0);
    TraceLogged(base, s, Null, pc, 0);
    if operation == 1 && s.acquired < K.cells {
      TakeLogged(K, base, s, pc);
      ExactMeans(K, K.cellAddress(s.acquired), K.cellBytes);
      ExactMeans(K, K.objectAddress, K.objectBytes);
    } else {
      var i := FindView(s.views, argument, 0, s.acquired);
      TraceLogged(base, s.(readCount := (s.readCount + 1) % U32), Read, pc, i + 1);
      if i < s.acquired && s.cells[i].tag { ConsumeLogged(K, base, s, i, pc, false); }
    }
  }

  // The invariant over any sequence of entries and calls, whatever their arguments.
  lemma {:induction false} EveryCallSound(K: Kernel, base: int, s: Session, calls: seq<Call>)
    requires Sound(K, base, s) && Logged(base, s) && Sane(K)
    ensures Sound(K, base, PerformAll(K, s, calls)) && Logged(base, PerformAll(K, s, calls))
    decreases |calls|
  {
    hide Gate, Count, Tags, Sane, Numbered, History;
    if calls != [] {
      var call := calls[0];
      if call.Gated? {
        GateSound(K, base, s, call.argument, call.operation, call.pc);
        GateLogged(K, base, s, call.argument, call.operation, call.pc);
      }
      EveryCallSound(K, base, Perform(K, s, call), calls[1..]);
    }
  }

  lemma FreshSound(K: Kernel, base: int)
    ensures Sound(K, base, Fresh(K, base)) && Logged(base, Fresh(K, base))
  {
    CountNone(Tags(Fresh(K, base).cells));
  }

  lemma ViewsApart(K: Kernel, i: nat, j: nat)
    requires Sane(K) && i < K.cells && j < K.cells
    ensures View(K, i) == View(K, j) <==> i == j
  {
    var a, b := K.cellAddress(i), K.cellAddress(j);
  }

  // Views are never changed or shared, and consumed cells never regain authority.
  ghost predicate Advances(K: Kernel, s: Session, t: Session)
  {
    && Shape(K, s) && Shape(K, t)
    && s.acquired <= t.acquired <= s.acquired + 1 && s.released <= t.released <= s.released + 1
    && s.log <= t.log
    && (forall i :: 0 <= i < s.acquired ==> t.views[i] == s.views[i] && (t.cells[i].tag ==> s.cells[i].tag))
    && (forall i, j :: 0 <= i < j < t.acquired ==> t.views[i] != t.views[j])
  }

  lemma GateAdvances(K: Kernel, base: int, s: Session, argument: Capability, operation: nat, pc: nat)
    requires Sound(K, base, s) && Sane(K)
    ensures Advances(K, s, Gate(K, s, argument, operation, pc).s)
  {
    var t := Gate(K, s, argument, operation, pc).s;
    GateSound(K, base, s, argument, operation, pc);
    hide Count, Tags;
    forall i, j | 0 <= i < j < t.acquired ensures t.views[i] != t.views[j] {
      ViewsApart(K, i, j);
    }
  }

  // After a failure a call changes nothing but the trace, and reports failure again.
  lemma FailureIsSticky(K: Kernel, s: Session, argument: Capability, operation: nat, pc: nat)
    requires Shape(K, s) && s.failed && Sane(K)
    ensures var r := Gate(K, s, argument, operation, pc);
      r.value == FAILURE && r.s == s.(sequence := r.s.sequence, log := r.s.log)
  {
  }

  // So once it has failed, an invocation neither enters nor changes anything but its trace.
  lemma {:induction false} FailureBars(K: Kernel, s: Session, calls: seq<Call>)
    requires Shape(K, s) && s.failed && Sane(K)
    ensures var t := PerformAll(K, s, calls); t == s.(sequence := t.sequence, log := t.log)
    decreases |calls|
  {
    hide Gate, Sane;
    if calls != [] {
      var call := calls[0];
      if call.Gated? { FailureIsSticky(K, s, call.argument, call.operation, call.pc); }
      FailureBars(K, Perform(K, s, call), calls[1..]);
    }
  }

  // Entry is granted to the first accepted request, unless a call came before it.
  lemma {:induction false} EntersFirst(K: Kernel, base: int, calls: seq<Call>)
    requires Sane(K)
    ensures PerformAll(K, Fresh(K, base), calls).entered <==>
      exists i :: 0 <= i < |calls| && calls[i] == Enter(true) && forall j :: 0 <= j < i ==> calls[j].Enter?
    decreases |calls|
  {
    hide Gate, Sane;
    if calls != [] {
      var call, rest := calls[0], calls[1..];
      match call {
        case Enter(accepted) =>
          if accepted {
            StaysEntered(K, Perform(K, Fresh(K, base), call), rest);
            assert calls[0] == Enter(true);
          } else {
            EntersFirst(K, base, rest);
            assert forall i :: 0 < i < |calls| ==> calls[i] == rest[i - 1];
            if i :| 0 <= i < |rest| && rest[i] == Enter(true) && forall j :: 0 <= j < i ==> rest[j].Enter? {
              assert calls[i + 1] == Enter(true) && forall j :: 0 <= j < i + 1 ==> calls[j].Enter?;
            }
            if i :| 0 <= i < |calls| && calls[i] == Enter(true) && forall j :: 0 <= j < i ==> calls[j].Enter? {
              assert rest[i - 1] == Enter(true) && forall j :: 0 <= j < i - 1 ==> rest[j].Enter?;
            }
          }
        case Gated(argument, operation, pc) =>
          EarlyCallFails(K, Fresh(K, base), argument, operation, pc);
          FailureBars(K, Perform(K, Fresh(K, base), call), rest);
      }
    }
  }

  lemma EarlyCallFails(K: Kernel, s: Session, argument: Capability, operation: nat, pc: nat)
    requires Shape(K, s) && !s.entered
    ensures var t := Gate(K, s, argument, operation, pc).s; t.failed && !t.entered
  {
  }

  lemma {:induction false} StaysEntered(K: Kernel, s: Session, calls: seq<Call>)
    requires Shape(K, s) && s.entered
    ensures PerformAll(K, s, calls).entered
    decreases |calls|
  {
    if calls != [] { StaysEntered(K, Perform(K, s, calls[0]), calls[1..]); }
  }

  // A read or release succeeds exactly on the canonical view of a cell that still holds
  // authority, and then affects that cell alone; everything else is refused without effect.
  lemma UseExactly(K: Kernel, base: int, s: Session, argument: Capability, operation: nat, pc: nat, i: nat)
    requires Sound(K, base, s) && Sane(K) && s.entered && !s.failed && (operation == 2 || operation == 3)
    requires i < s.acquired && argument == View(K, i)
    ensures var r := Gate(K, s, argument, operation, pc);
      if !s.cells[i].tag then r == Rejected(s, pc)
      else if operation == 2 then r.value == Scalar(Widen(K.value)) && !r.s.failed && r.s.cells == s.cells
      else r.value == Scalar(0) && !r.s.failed && r.s.cells == s.cells[i := s.cells[i].(tag := false)]
           && r.s.released == s.released + 1 && r.s.refs == s.refs - 1 && r.s.readCount == s.readCount
  {
    var k := FindView(s.views, argument, 0, s.acquired);
    assert s.views[i] == argument;
    if k < s.acquired { ViewsApart(K, i, k); }
  }

  lemma UseRefused(K: Kernel, base: int, s: Session, argument: Capability, operation: nat, pc: nat)
    requires Sound(K, base, s) && Sane(K) && s.entered && !s.failed && operation != 1
    requires forall i {:trigger View(K, i)} :: 0 <= i < s.acquired ==> argument != View(K, i)
    ensures Gate(K, s, argument, operation, pc) == Rejected(s, pc)
  {
    forall i | 0 <= i < s.acquired ensures s.views[i] != argument {
      assert s.views[i] == View(K, i);
    }
  }

  // The all-ones address in a reply means failure exactly when the object does not hold -1.
  lemma FailureSignal(K: Kernel, base: int, s: Session, argument: Capability, operation: nat, pc: nat)
    requires Sound(K, base, s) && Sane(K)
    ensures var r := Gate(K, s, argument, operation, pc);
      r.value.address == U64 - 1 <==> r.s.failed || (r.s.readCount != s.readCount && K.value == -1)
  {
    var k := FindView(s.views, argument, 0, s.acquired);
  }

  // An object holding -1 makes a successful read look like a failure.
  lemma FailureSignalAmbiguous(K: Kernel, base: int, s: Session, pc: nat)
    requires Sound(K, base, s) && Sane(K) && s.entered && !s.failed && s.acquired > 0 && s.cells[0].tag
    requires K.value == -1
    ensures var r := Gate(K, s, View(K, 0), 2, pc); r.value == FAILURE && !r.s.failed
  {
    UseExactly(K, base, s, View(K, 0), 2, pc, 0);
  }

  // ---- The wrapper ----

  // The cleanup loop consumes what is left, each cell once.
  lemma {:induction false} CleanupSound(K: Kernel, base: int, s: Session, i: nat)
    requires Sound(K, base, s) && Logged(base, s) && i <= s.acquired
    requires forall j :: 0 <= j < i ==> !s.cells[j].tag
    ensures var t := CleanupAll(K, s, i);
      && Sound(K, base, t) && Logged(base, t) && t.entered == s.entered && t.failed == s.failed
      && t.views == s.views && t.released - t.cleanup == s.released - s.cleanup
      && forall j :: 0 <= j < K.cells ==> !t.cells[j].tag
    decreases s.acquired - i
  {
    hide Count, Tags, Numbered, History;
    if i < s.acquired {
      var t := if s.cells[i].tag then Consume(s, i, U64 - 1, true) else s;
      if s.cells[i].tag {
        ConsumeSound(K, base, s, i, U64 - 1, true);
        ConsumeLogged(K, base, s, i, U64 - 1, true);
      }
      CleanupSound(K, base, t, i + 1);
    }
  }

  // However the program runs, the wrapper ends balanced, with the provider at its baseline and
  // no authority left; every acquired cell was cut exactly once and no other ever. It reports 0
  // exactly for a failed or never entered run, and for a program whose own result is 0.
  lemma InvokeBalances(K: Kernel, base: int, calls: seq<Call>, result: nat)
    requires Sane(K)
    ensures var (s, r) := Invoke(K, base, calls, result);
      var ran := PerformAll(K, Fresh(K, base), calls);
      && s.acquired == s.released == ran.acquired && s.refs == base
      && s.released - s.cleanup == ran.released - ran.cleanup
      && (forall i :: 0 <= i < K.cells ==> s.cells[i] == NULL && s.views[i] == NULL)
      && (s.failed <==> ran.failed || !ran.entered)
      && (r == 0 <==> ran.failed || !ran.entered || result == 0) && (r == 0 || r == result)
      && (forall i {:trigger Tally(s.log, Clear, i + 1)} :: 0 <= i < K.cells ==>
            Tally(s.log, Clear, i + 1) == if i < s.acquired then 1 else 0)
  {
    hide Count, Tags, Numbered, History, PerformAll, CleanupAll, Sane;
    FreshSound(K, base);
    EveryCallSound(K, base, Fresh(K, base), calls);
    var ran := PerformAll(K, Fresh(K, base), calls);
    CleanupSound(K, base, ran, 0);
    var c := CleanupAll(K, ran, 0);
    NoneLeft(c);
    CutOnce(base, c, Invoke(K, base, calls, result).0);
  }

  lemma NoneLeft(s: Session)
    requires forall i :: 0 <= i < |s.cells| ==> !s.cells[i].tag
    ensures Count(Tags(s.cells)) == 0
  {
    CountNone(Tags(s.cells));
  }

  lemma CutOnce(base: int, c: Session, s: Session)
    requires Logged(base, c) && |s.log| == |c.log| + 1 && s.log[..|c.log|] == c.log
    requires s.log[|c.log|].kind.Exit? || s.log[|c.log|].kind.Failed?
    requires forall i :: 0 <= i < |c.cells| ==> !c.cells[i].tag
    ensures forall i {:trigger Tally(s.log, Clear, i + 1)} :: 0 <= i < |c.cells| ==>
      Tally(s.log, Clear, i + 1) == if i < c.acquired then 1 else 0
  {
    forall i {:trigger Tally(s.log, Clear, i + 1)} | 0 <= i < |c.cells|
      ensures Tally(s.log, Clear, i + 1) == if i < c.acquired then 1 else 0
    {
      assert History(c.log, i < c.acquired, c.cells[i].tag, i + 1);
    }
  }
}
