/** What the explorer finds, for all bounds: the machine has no counterexample, and the
    object-wide revocation mutant is killed by a history of exactly three edges, unless at
    most one acquisition can be live or no register can name one. */
module ModelCheck {
  import opened Common
  import opened OwnershipModel
  import opened OwnershipOracle
  import opened Explorer
  import BFS = BreadthFirst
  import SO = SearchOrder
  import V = OwnershipVerdict

  lemma CleanEndOwned(g: Setup, path: seq<Edge>)
    requires g.capacity >= 0 && BFS.Clean(GraphOf(g), path)
    ensures Owned(BFS.End(GraphOf(g), path), g.capacity)
  {
    hide Fire, Transitions;
    StartOwned(g);
    if path != [] {
      StateCheckerExact(path[|path| - 1].target, g.capacity);
    }
  }

  // The edge that ends a counterexample, and where it starts.
  lemma CounterexampleEdge(g: Setup, path: seq<Edge>) returns (s: State, e: Edge)
    requires g.capacity >= 0 && Counterexample(g, path)
    ensures path != [] && s == BFS.End(GraphOf(g), path[..|path| - 1]) && e == path[|path| - 1]
    ensures Owned(s, g.capacity) && s.terminal.Active? && InRange(s, e.move)
    ensures e == Fire(s, e.move, g.capacity, g.mutation) && !Accepted(s, e, g.capacity)
  {
    hide Fire, Transitions, Accepted;
    var prefix := path[..|path| - 1];
    s, e := BFS.End(GraphOf(g), prefix), path[|path| - 1];
    CleanEndOwned(g, prefix);
    EdgesOf(g, s, e);
  }

  // The machine itself passes the exploration at every bound.
  lemma MachinePasses(g: Setup, path: seq<Edge>)
    requires g.capacity >= 0 && !g.mutation
    ensures !Counterexample(g, path)
  {
    hide Fire, Accepted;
    if Counterexample(g, path) {
      var s, e := CounterexampleEdge(g, path);
      FireIsAccepted(s, e.move, g.capacity);
    }
  }

  lemma FireGrowth(s: State, m: Move, capacity: int, mutation: bool)
    requires Shaped(s) && InRange(s, m)
    ensures var t := Fire(s, m, capacity, mutation).target;
      |t.live| <= |s.live| + 1 && |t.registers| == |s.registers|
  {
  }

  // A path acquires at most once per edge.
  lemma {:induction false} PathGrowth(g: Setup, path: seq<Edge>)
    requires g.capacity >= 0 && BFS.Clean(GraphOf(g), path)
    ensures |BFS.End(GraphOf(g), path).live| <= |path|
    ensures |BFS.End(GraphOf(g), path).registers| == g.registers
  {
    hide Fire, Transitions;
    if path != [] {
      var prefix, e := path[..|path| - 1], path[|path| - 1];
      PathGrowth(g, prefix);
      var s := BFS.End(GraphOf(g), prefix);
      CleanEndOwned(g, prefix);
      EdgesOf(g, s, e);
      FireGrowth(s, e.move, g.capacity, g.mutation);
    }
  }

  // No shorter history distinguishes the mutant, and no history does below two acquisitions.
  lemma MutantNeedsThree(g: Setup, path: seq<Edge>)
    requires g.capacity >= 0 && g.mutation && Counterexample(g, path)
    ensures |path| >= 3 && g.capacity >= 2 && g.registers >= 1
  {
    var s, e := CounterexampleEdge(g, path);
    MutantRejectedExactly(s, e.move, g.capacity);
    CountBounds(s.live);
    PathGrowth(g, path[..|path| - 1]);
  }

  // Where the second acquisition goes: the first empty register, if there is one.
  function Second(g: Setup): (r: nat)
    requires g.registers >= 1
    ensures r < g.registers
  {
    if g.registers >= 2 then 1 else 0
  }

  // acquire(0); acquire(1); release(0), taken by the mutant; with one register it is reused.
  function MutantHistory(g: Setup): (path: seq<Edge>)
    requires g.capacity >= 2 && g.registers >= 1
    ensures |path| == 3
  {
    var s0 := Start(g);
    var a := Fire(s0, Acquire(0), g.capacity, true);
    var b := Fire(a.target, Acquire(Second(g)), g.capacity, true);
    [a, b, Fire(b.target, Release(0), g.capacity, true)]
  }

  lemma AcquireStep(g: Setup, s: State, r: nat)
    requires Owned(s, g.capacity) && s.terminal.Active? && |s.live| < g.capacity && r < |s.registers|
    ensures var e := Fire(s, Acquire(r), g.capacity, g.mutation);
      && BFS.Edge(GraphOf(g), s, e) && GraphOf(g).good(s, e) && LabelOf(e) == Label(Acquire(r), Success)
      && Owned(e.target, g.capacity) && e.target.terminal.Active?
      && e.target.live == s.live + [true] && e.target.registers == s.registers[r := |s.live| + 1]
  {
    var e := Fire(s, Acquire(r), g.capacity, g.mutation);
    FireIsAccepted(s, Acquire(r), g.capacity);
    EdgesOf(g, s, e);
    FireKeepsOwned(s, Acquire(r), g.capacity, g.mutation);
  }

  // The two acquisitions are clean, and leave two live acquisitions, one of them in register 0.
  lemma TwoAcquired(g: Setup)
    requires g.capacity >= 2 && g.registers >= 1 && g.mutation
    ensures var (path, s) := (MutantHistory(g), MutantHistory(g)[1].target);
      && BFS.Clean(GraphOf(g), path[..1]) && BFS.End(GraphOf(g), path[..1]) == path[0].target
      && BFS.Clean(GraphOf(g), path[..2]) && BFS.End(GraphOf(g), path[..2]) == s
      && path[0].target.registers == Start(g).registers[0 := 1] && Owned(path[0].target, g.capacity)
      && path[0].target.terminal.Active?
      && Owned(s, g.capacity) && s.terminal.Active? && InRange(s, Release(0))
      && s.live == [true, true] && s.registers[0] == (if g.registers >= 2 then 1 else 2)
      && path[2] == Fire(s, Release(0), g.capacity, true)
      && LabelOf(path[0]) == Label(Acquire(0), Success) && LabelOf(path[1]) == Label(Acquire(Second(g)), Success)
  {
    hide Accepted, Transitions, Sum, Count;
    var graph, path := GraphOf(g), MutantHistory(g);
    var a, b := path[0], path[1];
    StartOwned(g);
    AcquireStep(g, Start(g), 0);
    AcquireStep(g, a.target, Second(g));
    hide Fire, Owned;
    assert [] + [true] == [true] && [true] + [true] == [true, true];
    BFS.CleanExtends(graph, [], a);
    BFS.CleanExtends(graph, [a], b);
    assert path[..2] == [a] + [b] && [] + [a] == [a] == path[..1];
  }

  // The mutant's release of one of two live acquisitions is an edge, and is rejected.
  lemma ReleaseRejected(g: Setup, s: State)
    requires Owned(s, g.capacity) && s.terminal.Active? && InRange(s, Release(0)) && g.mutation
    requires s.live == [true, true] && s.registers[0] != 0
    ensures var e := Fire(s, Release(0), g.capacity, true);
      BFS.Edge(GraphOf(g), s, e) && !GraphOf(g).good(s, e)
  {
    hide Accepted, Transitions, Fire;
    CountPush([true], true);
    CountPush([], true);
    assert [true] + [true] == [true, true] && [] + [true] == [true] && Bits([]) == [];
    assert Count(s.live) == 2 && Holds(s, s.registers[0]);
    MutantRejectedExactly(s, Release(0), g.capacity);
    var e := Fire(s, Release(0), g.capacity, true);
    ReleaseMoves(s, g.capacity);
    EdgesOf(g, s, e);
    assert !Accepted(s, e, g.capacity);
    assert !Sound(s, e, g.capacity);
  }

  lemma ReleaseMoves(s: State, capacity: int)
    requires Shaped(s) && InRange(s, Release(0))
    ensures Fire(s, Release(0), capacity, true).move == Release(0)
  {
  }

  lemma MutantKilled(g: Setup)
    requires g.capacity >= 2 && g.registers >= 1 && g.mutation
    ensures Counterexample(g, MutantHistory(g))
  {
    hide Fire, GraphOf, Owned, BFS.Clean, BFS.Edge;
    TwoAcquired(g);
    ReleaseRejected(g, MutantHistory(g)[1].target);
  }

  // ---- Which history kills the mutant ----

  // An enabled move that no other precedes is the generator's first.
  lemma FirstMove(s: State, m: Move, capacity: int)
    requires Shaped(s) && s.terminal.Active? && InRange(s, m)
    requires forall n :: InRange(s, n) ==> !Precedes(KeyOf(s.registers, n), KeyOf(s.registers, m))
    ensures SO.Place(Transitions(s, capacity, true), Fire(s, m, capacity, true)) == 0
  {
    hide Fire, Transitions, InRange, KeyOf, Precedes, Shaped;
    var es, e := Transitions(s, capacity, true), Fire(s, m, capacity, true);
    FireMoves(s, m, capacity, true);
    TransitionsOrdered(s, capacity, true);
    TransitionsAreFirings(s, capacity, true, e);
    var p := SO.Place(es, e);
    if p > 0 { TransitionsAreFirings(s, capacity, true, es[0]); }
  }

  // The mutant's edges and the generator's places for them.
  lemma MutantPlaces(g: Setup)
    requires g.capacity >= 2 && g.registers >= 1 && g.mutation
    ensures var (path, s) := (MutantHistory(g), MutantHistory(g)[1].target);
      Shaped(s) && SO.Places(GraphOf(g), path) == [0, 0, SO.Place(Transitions(s, g.capacity, true), path[2])]
  {
    hide Transitions, Fire, Owned;
    TwoAcquired(g);
    var path, graph := MutantHistory(g), GraphOf(g);
    var s0, s1, s := Start(g), path[0].target, path[1].target;
    OwnedShaped(s1, g.capacity);
    OwnedShaped(s, g.capacity);
    FirstMove(s0, Acquire(0), g.capacity);
    FirstMove(s1, Acquire(Second(g)), g.capacity);
    assert path == [path[0]] + [path[1]] + [path[2]] && path[..2] == [path[0]] + [path[1]] && path[..1] == [path[0]];
    SO.PlacesPush(graph, [], path[0]);
    SO.PlacesPush(graph, [path[0]], path[1]);
    SO.PlacesPush(graph, [path[0]] + [path[1]], path[2]);
    assert [] + [path[0]] == [path[0]];
  }

  lemma OwnedShaped(s: State, capacity: int)
    requires Owned(s, capacity)
    ensures Shaped(s)
  {
  }

  // A rejected edge of the mutant with two live acquisitions is no earlier than release(0).
  lemma NoEarlierRelease(s: State, e: Edge, capacity: int)
    requires Owned(s, capacity) && s.terminal.Active? && InRange(s, Release(0)) && s.registers[0] != 0
    requires s.live == [true, true]
    requires e in Transitions(s, capacity, true) && InRange(s, e.move) && !Accepted(s, e, capacity)
    requires var es := Transitions(s, capacity, true);
      SO.Place(es, e) <= SO.Place(es, Fire(s, Release(0), capacity, true))
    ensures e == Fire(s, Release(0), capacity, true)
  {
    hide Fire, Transitions, Accepted, Owned, InRange;
    OwnedShaped(s, capacity);
    var es, f := Transitions(s, capacity, true), Fire(s, Release(0), capacity, true);
    TransitionsAreFirings(s, capacity, true, e);
    TransitionsAreFirings(s, capacity, true, f);
    ReleaseMoves(s, capacity);
    MutantRejectedExactly(s, e.move, capacity);
    assert e.move.Release?;
    TransitionsOrdered(s, capacity, true);
    ReleaseZeroFirst(s.registers, e.move.r);
  }

  lemma ReleaseZeroFirst(registers: seq<int>, r: nat)
    ensures !Precedes(KeyOf(registers, Release(r)), KeyOf(registers, Release(0)))
  {
  }

  // Three edges, place by place.
  lemma ThreePlaces(g: Setup, path: seq<Edge>)
    requires |path| == 3
    ensures var (graph, p) := (GraphOf(g), SO.Places(GraphOf(g), path));
      && p[0] == SO.Place(graph.out(graph.start), path[0])
      && p[1] == SO.Place(graph.out(graph.target(path[0])), path[1])
      && p[2] == SO.Place(graph.out(graph.target(path[1])), path[2])
  {
    var graph := GraphOf(g);
    hide GraphOf, SO.Place, SO.Places;
    assert path == [path[0]] + [path[1]] + [path[2]] && [] + [path[0]] == [path[0]];
    assert SO.Places(graph, []) == [];
    SO.PlacesPush(graph, [], path[0]);
    SO.PlacesPush(graph, [path[0]], path[1]);
    SO.PlacesPush(graph, [path[0]] + [path[1]], path[2]);
  }

  // Three edges of a counterexample are edges of the graph, the last one bad.
  lemma ThreeEdges(g: Setup, path: seq<Edge>)
    requires |path| == 3 && Counterexample(g, path)
    ensures var graph := GraphOf(g);
      && path[0] in graph.out(graph.start) && path[1] in graph.out(graph.target(path[0]))
      && path[2] in graph.out(graph.target(path[1])) && !graph.good(graph.target(path[1]), path[2])
  {
    var graph := GraphOf(g);
    hide GraphOf;
    assert path[..2][..1] == path[..1] && path[..1][..0] == [];
    assert BFS.Clean(graph, path[..2]) && BFS.Clean(graph, path[..1]);
  }

  lemma LessThree(p: seq<nat>, i: nat)
    requires |p| == 3 && SO.NoLater(p, [0, 0, i])
    ensures p[0] == p[1] == 0 && p[2] <= i
  {
    var q: seq<nat> := [0, 0, i];
    if p != q {
      var j :| 0 <= j < 3 && p[..j] == q[..j] && p[j] < q[j];
      assert j == 2;
      assert p[0] == p[..2][0] == q[..2][0] && p[1] == p[..2][1] == q[..2][1];
    }
  }

  // Two paths whose first two edges stand first.
  lemma SameStart(g: Setup, path: seq<Edge>, mine: seq<Edge>)
    requires |path| == |mine| == 3 && Counterexample(g, path) && Counterexample(g, mine)
    requires var (p, q) := (SO.Places(GraphOf(g), path), SO.Places(GraphOf(g), mine));
      p[0] == p[1] == q[0] == q[1] == 0 && p[2] <= q[2]
    ensures path[0] == mine[0] && path[1] == mine[1]
    ensures var out := GraphOf(g).out(GraphOf(g).target(mine[1]));
      path[2] in out && !GraphOf(g).good(GraphOf(g).target(mine[1]), path[2])
      && SO.Place(out, path[2]) <= SO.Place(out, mine[2])
  {
    hide GraphOf, Counterexample, SO.Places;
    ThreePlaces(g, path);
    ThreePlaces(g, mine);
    ThreeEdges(g, path);
    ThreeEdges(g, mine);
  }

  // What makes a history the first to kill the mutant.
  ghost predicate Killing(g: Setup, mine: seq<Edge>, s: State)
  {
    && |mine| == 3 && mine[1].target == s && Counterexample(g, mine)
    && SO.Places(GraphOf(g), mine)[..2] == [0, 0]
    && Shaped(s) && |s.registers| > 0 && s.registers[0] != 0 && s.live == [true, true]
    && Owned(s, g.capacity) && s.terminal.Active? && mine[2] == Fire(s, Release(0), g.capacity, true)
  }

  lemma MutantKilling(g: Setup)
    requires g.capacity >= 2 && g.registers >= 1 && g.mutation
    ensures Killing(g, MutantHistory(g), MutantHistory(g)[1].target)
  {
    hide MutantHistory, Counterexample, BFS.Clean, BFS.End, Owned, Fire, Transitions, SO.Places, GraphOf, LabelOf;
    MutantKilled(g);
    MutantPlaces(g);
    TwoAcquired(g);
    var p := SO.Places(GraphOf(g), MutantHistory(g));
    assert p == [p[0], p[1], p[2]];
  }

  lemma FirstKills(g: Setup, path: seq<Edge>, mine: seq<Edge>, s: State)
    requires g.capacity >= 0 && g.mutation && Killing(g, mine, s) && Counterexample(g, path) && First(g, path)
    ensures path == mine
  {
    hide Counterexample, Owned, Fire, SO.Places, SO.NoLater, GraphOf, Shaped;
    var q := SO.Places(GraphOf(g), mine);
    assert q[0] == q[..2][0] && q[1] == q[..2][1];
    assert q == [0, 0, q[2]];
    MutantNeedsThree(g, path);
    LessThree(SO.Places(GraphOf(g), path), q[2]);
    SameStart(g, path, mine);
    TargetIs(g, mine[1]);
    LastIsRelease(g, s, path[2]);
    assert path == [path[0], path[1], path[2]] && mine == [mine[0], mine[1], mine[2]];
  }

  // The first counterexample of the mutant, for all bounds that have one.
  lemma MutantFirst(g: Setup, path: seq<Edge>)
    requires g.capacity >= 2 && g.registers >= 1 && g.mutation && Counterexample(g, path) && First(g, path)
    ensures path == MutantHistory(g)
  {
    MutantKilling(g);
    hide *;
    FirstKills(g, path, MutantHistory(g), MutantHistory(g)[1].target);
  }

  lemma TargetIs(g: Setup, e: Edge)
    ensures GraphOf(g).target(e) == e.target
  {
  }

  lemma LastIsRelease(g: Setup, s: State, e: Edge)
    requires Owned(s, g.capacity) && s.terminal.Active? && InRange(s, Release(0)) && s.registers[0] != 0 && g.mutation
    requires s.live == [true, true] && e in GraphOf(g).out(s) && !GraphOf(g).good(s, e)
    requires SO.Place(GraphOf(g).out(s), e) <= SO.Place(GraphOf(g).out(s), Fire(s, Release(0), g.capacity, true))
    ensures e == Fire(s, Release(0), g.capacity, true)
  {
    hide Fire, Transitions, Owned, GraphOf, Accepted;
    OwnedShaped(s, g.capacity);
    GraphMeans(g, s);
    NoEarlierRelease(s, e, g.capacity);
  }

  // The acquisition the mutant revokes beside the released one.
  function Bystander(g: Setup): nat
  {
    if g.registers >= 2 then 2 else 1
  }

  // The rule the mutant's release breaks first: it affects the other acquisition too.
  lemma MutantBreaks(g: Setup, s: State)
    requires Owned(s, g.capacity) && s.terminal.Active? && InRange(s, Release(0)) && g.mutation
    requires s.live == [true, true] && s.registers[0] == 3 - Bystander(g)
    ensures Judge(s, Fire(s, Release(0), g.capacity, true), g.capacity) == Some(OnEdge(AlsoAffects(Bystander(g))))
    ensures LabelOf(Fire(s, Release(0), g.capacity, true)) == Label(Release(0), Consumed)
  {
    hide Sum, Count, StateError;
    var e := Fire(s, Release(0), g.capacity, true);
    MutantRejectedExactly(s, Release(0), g.capacity);
    FireKeepsOwned(s, Release(0), g.capacity, true);
    V.EdgeVerdictExactly(s, e, g.capacity, AlsoAffects(Bystander(g)));
    ReleaseMoves(s, g.capacity);
    assert e.target.explicit == [s.explicit[0] + 1, s.explicit[1] + 1];
    hide EdgeError;
    forall f | V.EdgeBreaks(s, e, g.capacity, f)
      ensures V.NoLater(V.EdgeRank(AlsoAffects(Bystander(g))), V.EdgeRank(f))
    {
    }
  }

  // The script's verdict: explore the machine, and on request require the mutant's death. With
  // two registers the mutant dies of acquire(0), acquire(1), release(0), which also affects
  // acquisition 2.
  method Check(registers: nat, spills: nat, acquisitions: int, mutationCheck: bool)
    returns (okay: bool, mutant: Option<Report>)
    ensures okay <==> acquisitions >= 0 && (mutationCheck ==> acquisitions >= 2 && registers >= 1)
    ensures mutant.Some? <==> mutationCheck
    ensures mutationCheck && acquisitions >= 0 ==>
      mutant.value.Verified? == (acquisitions < 2 || registers == 0)
    ensures mutationCheck && acquisitions >= 2 && registers >= 1 ==> Dies(registers, mutant.value)
  {
    hide *;
    ghost var machine := Setup(registers, spills, acquisitions, false);
    ghost var broken := Setup(registers, spills, acquisitions, true);
    var report := Explore(registers, spills, acquisitions, false);
    if acquisitions >= 0 {
      assert NoCounterexample(machine) by { MachineClean(machine); }
    }
    okay, mutant := report.Verified?, None;
    if mutationCheck {
      var found := Explore(registers, spills, acquisitions, true);
      mutant := Some(found);
      okay := okay && !found.Verified?;
      if acquisitions >= 0 {
        MutantVerdict(broken);
        if acquisitions >= 2 && registers >= 1 {
          MutantReport(broken, found);
        }
      }
    }
  }

  // The recorded death of the mutant.
  predicate Dies(registers: nat, r: Report)
  {
    && r.Failed?
    && r.counterexample == [Label(Acquire(0), Success), Label(Acquire(if registers >= 2 then 1 else 0), Success),
                            Label(Release(0), Consumed)]
    && r.fault == OnEdge(AlsoAffects(if registers >= 2 then 2 else 1))
  }

  lemma MutantReport(g: Setup, r: Report)
    requires g.capacity >= 2 && g.registers >= 1 && g.mutation && r.Failed? && FailureMeans(g, r)
    ensures Dies(g.registers, r)
  {
    hide *;
    var path, s := ReportedPath(g, r);
    MutantFirst(g, path);
    MutantReads(g, path);
    assert path[..|path| - 1] == path[..2];
    MutantDeath(g, path, s, r);
  }

  // The path a failed report is about, and the state its last edge leaves.
  lemma ReportedPath(g: Setup, r: Report) returns (path: seq<Edge>, s: State)
    requires g.capacity >= 0 && r.Failed? && FailureMeans(g, r)
    ensures path != [] && Counterexample(g, path) && First(g, path) && r.counterexample == BFS.Labels(GraphOf(g), path)
    ensures s == BFS.End(GraphOf(g), path[..|path| - 1])
    ensures Shaped(s) && InRange(s, path[|path| - 1].move) && Judge(s, path[|path| - 1], g.capacity) == Some(r.fault)
  {
    hide Reported, Shortest, Shaped, InRange, Judge, GraphOf, Counterexample, First, BFS.End, BFS.Labels;
    var some: seq<Edge>, order: seq<State>, n: nat :| Reported(g, r, some, order, n);
    ReportedIs(g, r, some, order, n);
    path := some;
    s := BFS.End(GraphOf(g), path[..|path| - 1]);
  }

  // The killing history, edge by edge.
  ghost predicate Reads(g: Setup, path: seq<Edge>, s: State)
  {
    && |path| == 3 && g.registers >= 1 && BFS.End(GraphOf(g), path[..2]) == s && Shaped(s) && |s.registers| > 0
    && Owned(s, g.capacity) && s.terminal.Active? && s.live == [true, true] && s.registers[0] == 3 - Bystander(g)
    && path[2] == Fire(s, Release(0), g.capacity, true)
    && LabelOf(path[0]) == Label(Acquire(0), Success) && LabelOf(path[1]) == Label(Acquire(Second(g)), Success)
  }

  lemma MutantReads(g: Setup, path: seq<Edge>)
    requires g.capacity >= 2 && g.registers >= 1 && g.mutation && path == MutantHistory(g)
    ensures |path| == 3 && Reads(g, path, BFS.End(GraphOf(g), path[..2]))
  {
    hide MutantHistory, Fire, GraphOf, BFS.Clean, BFS.End, LabelOf;
    TwoAcquired(g);
    hide Owned;
  }

  lemma MutantDeath(g: Setup, path: seq<Edge>, s: State, r: Report)
    requires g.mutation && r.Failed? && Reads(g, path, s)
    requires r.counterexample == BFS.Labels(GraphOf(g), path)
    requires Shaped(s) && InRange(s, path[2].move) && Judge(s, path[2], g.capacity) == Some(r.fault)
    ensures Dies(g.registers, r)
  {
    hide Owned, Fire, GraphOf, Judge, BFS.End, LabelOf, BFS.Labels;
    MutantBreaks(g, s);
    LabelsOf(g, path);
  }

  lemma ReportedIs(g: Setup, r: Report, path: seq<Edge>, order: seq<State>, n: nat)
    requires r.Failed? && Reported(g, r, path, order, n)
    ensures path != [] && Counterexample(g, path) && First(g, path) && r.counterexample == BFS.Labels(GraphOf(g), path)
    ensures var (s, e) := (BFS.End(GraphOf(g), path[..|path| - 1]), path[|path| - 1]);
      Shaped(s) && InRange(s, e.move) && Judge(s, e, g.capacity) == Some(r.fault)
  {
    hide Counterexample, First, GraphOf, BFS.End, Judge, Transitions, EdgeTotal, Discovered, Sound;
  }

  lemma LabelsOf(g: Setup, path: seq<Edge>)
    requires |path| == 3
    ensures BFS.Labels(GraphOf(g), path) == [LabelOf(path[0]), LabelOf(path[1]), LabelOf(path[2])]
  {
  }

  lemma MachineClean(g: Setup)
    requires g.capacity >= 0 && !g.mutation
    ensures NoCounterexample(g)
  {
    hide Counterexample;
    forall path ensures !Counterexample(g, path) { MachinePasses(g, path); }
  }

  lemma MutantVerdict(g: Setup)
    requires g.capacity >= 0 && g.mutation
    ensures NoCounterexample(g) <==> g.capacity < 2 || g.registers == 0
  {
    hide Counterexample;
    if g.capacity >= 2 && g.registers >= 1 {
      MutantKilled(g);
    } else {
      forall path ensures !Counterexample(g, path) {
        if Counterexample(g, path) { MutantNeedsThree(g, path); }
      }
    }
  }
}
