/** The explorer of theory/check_model.py: it terminates, its verdict is exact, and the
    counterexample it returns is a shortest one. The machine has none; the object-wide
    revocation mutant has one of three edges as soon as two acquisitions can be live. */
module Explorer {
  import opened Common
  import opened OwnershipModel
  import opened OwnershipOracle
  import BFS = BreadthFirst
  import SO = SearchOrder

  datatype Setup = Setup(registers: nat, spills: nat, capacity: int, mutation: bool)

  datatype Fault = InState(state: StateFault) | OnEdge(edge: EdgeFault)

  datatype Report =
    | Verified(reachable: nat, terminals: nat, edges: nat)
    | Failed(fault: Fault, counterexample: seq<Label>, discovered: nat, edges: nat)

  type Graph = BFS.Graph<State, Edge, Label>
  type Search = BFS.Search<State, Edge, Label>
  type Parent = BFS.Parent<State, Label>

  function Start(g: Setup): (s: State)
    ensures Shaped(s)
  {
    Initial(g.registers, g.spills)
  }

  lemma StartOwned(g: Setup)
    ensures Owned(Start(g), g.capacity) <==> g.capacity >= 0
  {
    assert Bits([]) == [];
  }

  // Python's "state_error(target) or edge_error(state, edge)".
  function Judge(s: State, e: Edge, capacity: int): (f: Option<Fault>)
    requires Shaped(s) && InRange(s, e.move)
    ensures f.None? <==> Accepted(s, e, capacity)
  {
    var state := StateError(e.target, capacity);
    if state.Some? then Some(InState(state.value))
    else
      StateCheckerExact(e.target, capacity);
      var edge := EdgeError(s, e, capacity);
      if edge.Some? then Some(OnEdge(edge.value)) else None
  }

  function LabelOf(e: Edge): Label
  {
    Label(e.move, e.answer)
  }

  // ---- The finite universe that bounds the search ----

  function Tuples<T(==)>(alphabet: set<T>, n: nat): set<seq<T>>
  {
    if n == 0 then {[]}
    else set t, a | t in Tuples(alphabet, n - 1) && a in alphabet :: t + [a]
  }

  lemma {:induction false} TuplesComplete<T>(alphabet: set<T>, s: seq<T>)
    requires forall i :: 0 <= i < |s| ==> s[i] in alphabet
    ensures s in Tuples(alphabet, |s|)
  {
    if s != [] {
      var k := |s| - 1;
      TuplesComplete(alphabet, s[..k]);
      assert s == s[..k] + [s[k]];
    }
  }

  function UpTo<T(==)>(alphabet: set<T>, n: nat): set<seq<T>>
  {
    set k, t | 0 <= k <= n && t in Tuples(alphabet, k) :: t
  }

  lemma UpToComplete<T>(alphabet: set<T>, n: nat, s: seq<T>)
    requires |s| <= n && forall i :: 0 <= i < |s| ==> s[i] in alphabet
    ensures s in UpTo(alphabet, n)
  {
    TuplesComplete(alphabet, s);
  }

  function Tokens(n: int): (r: set<int>)
    ensures forall t :: t in r <==> 0 <= t <= n
    decreases n + 1
  {
    if n < 0 then {} else Tokens(n - 1) + {n}
  }

  ghost const REASONS: set<Terminal> := {
    Active, Finished, Exhausted,
    Faulted(NullCause, false), Faulted(StaleCause, false),
    Faulted(NullCause, true), Faulted(StaleCause, true) }

  ghost predicate Discoverable(g: Setup, s: State)
  {
    Owned(s, g.capacity) && |s.registers| == g.registers && |s.spills| == g.spills && s.terminal in REASONS
  }

  ghost function Universe(g: Setup): set<State>
    requires g.capacity >= 0
  {
    var tokens := Tokens(g.capacity);
    set live, registers, spills, explicit, cleanup, refcount, terminal |
      && live in UpTo({false, true}, g.capacity)
      && registers in Tuples(tokens, g.registers)
      && spills in Tuples(tokens, g.spills)
      && explicit in UpTo({0, 1}, g.capacity)
      && cleanup in UpTo({0, 1}, g.capacity)
      && 1 <= refcount <= 1 + g.capacity
      && terminal in REASONS
      :: State(live, registers, spills, explicit, cleanup, refcount, terminal)
  }

  lemma UniverseComplete(g: Setup, s: State)
    requires g.capacity >= 0 && Discoverable(g, s)
    ensures s in Universe(g)
  {
    var tokens := Tokens(g.capacity);
    UpToComplete({false, true}, g.capacity, s.live);
    TuplesComplete(tokens, s.registers);
    TuplesComplete(tokens, s.spills);
    UpToComplete({0, 1}, g.capacity, s.explicit);
    UpToComplete({0, 1}, g.capacity, s.cleanup);
    CountBounds(s.live);
    assert s == State(s.live, s.registers, s.spills, s.explicit, s.cleanup, s.refcount, s.terminal);
  }

  ghost predicate Sound(s: State, e: Edge, capacity: int)
  {
    Shaped(s) && InRange(s, e.move) && Accepted(s, e, capacity)
  }

  // Every state the search can discover: finitely many.
  ghost function States(g: Setup): (r: set<State>)
    ensures forall s :: s in r <==> Discoverable(g, s)
  {
    if g.capacity < 0 then {}
    else
      var r := set s | s in Universe(g) && Discoverable(g, s);
      assert forall s :: Discoverable(g, s) ==> s in r by {
        forall s | Discoverable(g, s) ensures s in r { UniverseComplete(g, s); }
      }
      r
  }

  // The graph the explorer walks: transitions, judged by the two checkers.
  ghost function GraphOf(g: Setup): Graph
  {
    BFS.Graph(
      Start(g),
      s => if Shaped(s) then Transitions(s, g.capacity, g.mutation) else [],
      (e: Edge) => e.target,
      (s, e) => Sound(s, e, g.capacity),
      LabelOf,
      States(g))
  }

  ghost predicate Counterexample(g: Setup, path: seq<Edge>)
  {
    BFS.Counterexample(GraphOf(g), path)
  }

  lemma EdgesOf(g: Setup, s: State, e: Edge)
    ensures BFS.Edge(GraphOf(g), s, e) <==>
      && Shaped(s) && s.terminal.Active? && InRange(s, e.move)
      && e == Fire(s, e.move, g.capacity, g.mutation)
  {
    hide Fire;
    if Shaped(s) {
      TransitionsAreFirings(s, g.capacity, g.mutation, e);
    }
  }

  lemma FireKeepsShape(s: State, m: Move, capacity: int, mutation: bool)
    requires Shaped(s) && s.terminal.Active? && InRange(s, m)
    ensures var t := Fire(s, m, capacity, mutation).target;
      |t.registers| == |s.registers| && |t.spills| == |s.spills| && t.terminal in REASONS
  {
  }

  lemma GraphClosed(g: Setup)
    requires g.capacity >= 0
    ensures BFS.Closed(GraphOf(g))
  {
    var graph := GraphOf(g);
    StartOwned(g);
    forall s, e | s in graph.universe && BFS.Edge(graph, s, e) && graph.good(s, e)
      ensures graph.target(e) in graph.universe
    {
      EdgesOf(g, s, e);
      StateCheckerExact(e.target, g.capacity);
      FireKeepsShape(s, e.move, g.capacity, g.mutation);
    }
  }

  lemma FirstFrontier(g: Setup)
    requires g.capacity >= 0
    ensures BFS.Frontier(GraphOf(g), BFS.Search(map[Start(g) := []], map[Start(g) := BFS.Root], {}, [Start(g)]), 0)
  {
    StartOwned(g);
    assert BFS.Reaches(GraphOf(g), Start(g), []);
  }

  // What has been counted: the states whose edges are all checked, in order.
  ghost predicate Counted(g: Setup, done: set<State>, order: seq<State>, edges: nat)
  {
    && |order| == |done|
    && (forall s :: s in order <==> s in done)
    && (forall s :: s in order ==> Shaped(s))
    && edges == EdgeTotal(order, g.capacity, g.mutation)
  }

  ghost function EdgeTotal(order: seq<State>, capacity: int, mutation: bool): nat
    requires forall s :: s in order ==> Shaped(s)
  {
    if order == [] then 0
    else
      var k := |order| - 1;
      EdgeTotal(order[..k], capacity, mutation) + |Transitions(order[k], capacity, mutation)|
  }

  ghost function Ended(states: set<State>): set<State>
  {
    set s | s in states && !s.terminal.Active?
  }

  // states is the set of states reachable along accepted edges, edges the number leaving them.
  ghost predicate Census(g: Setup, states: set<State>, edges: nat)
  {
    && (forall s :: s in states <==> exists path :: BFS.Reaches(GraphOf(g), s, path))
    && exists order :: Counted(g, states, order, edges)
  }

  lemma CountedStep(g: Setup, done: set<State>, order: seq<State>, edges: nat, s: State, total: nat)
    requires Counted(g, done, order, edges) && s !in done && Shaped(s)
    requires total == edges + |Transitions(s, g.capacity, g.mutation)|
    ensures Counted(g, done + {s}, order + [s], total)
    ensures |Ended(done + {s})| == |Ended(done)| + (if s.terminal.Active? then 0 else 1)
  {
    hide Transitions;
    assert (order + [s])[..|order|] == order;
    assert Ended(done + {s}) == if s.terminal.Active? then Ended(done) else Ended(done) + {s};
  }

  // The labels of a shortest path whose last edge a checker rejects.
  ghost predicate Shortest(g: Setup, history: seq<Label>)
  {
    && (exists path :: Counterexample(g, path) && history == BFS.Labels(GraphOf(g), path))
    && (forall path :: Counterexample(g, path) ==> |history| <= |path|)
  }

  lemma GraphMeans(g: Setup, s: State)
    requires Shaped(s)
    ensures GraphOf(g).out(s) == Transitions(s, g.capacity, g.mutation)
    ensures forall e :: e in Transitions(s, g.capacity, g.mutation) ==>
      InRange(s, e.move) && (GraphOf(g).good(s, e) <==> Accepted(s, e, g.capacity))
    ensures forall e :: GraphOf(g).target(e) == e.target && GraphOf(g).name(e) == LabelOf(e)
  {
    hide Fire, Transitions, Accepted;
    forall e | e in Transitions(s, g.capacity, g.mutation) ensures InRange(s, e.move) {
      TransitionsAreFirings(s, g.capacity, g.mutation, e);
    }
  }

  ghost function Targets(es: seq<Edge>): set<State>
  {
    set e | e in es :: e.target
  }

  // What the search has discovered once it has checked all edges of the states in order.
  ghost function Discovered(g: Setup, order: seq<State>): set<State>
    requires forall s :: s in order ==> Shaped(s)
  {
    if order == [] then {Start(g)}
    else
      var k := |order| - 1;
      Discovered(g, order[..k]) + Targets(Transitions(order[k], g.capacity, g.mutation))
  }

  ghost predicate Passed(g: Setup, s: State, n: nat)
  {
    Shaped(s) && n <= |Transitions(s, g.capacity, g.mutation)|
    && forall j :: 0 <= j < n ==> Sound(s, Transitions(s, g.capacity, g.mutation)[j], g.capacity)
  }

  // The failure of a search that had passed every edge of the states in order, then n edges of
  // s: its next edge is the last of the path, and the fault is the checkers' verdict on it.
  ghost predicate FailsAt(g: Setup, path: seq<Edge>, s: State, n: nat, fault: Fault)
  {
    && path != [] && BFS.End(GraphOf(g), path[..|path| - 1]) == s
    && Passed(g, s, n) && n < |Transitions(s, g.capacity, g.mutation)|
    && var e := path[|path| - 1];
    e == Transitions(s, g.capacity, g.mutation)[n] && InRange(s, e.move) && Judge(s, e, g.capacity) == Some(fault)
  }

  // No counterexample is shorter, nor as long and earlier in the order of the generator's edges.
  ghost predicate First(g: Setup, path: seq<Edge>)
  {
    forall other :: Counterexample(g, other) ==>
      |path| <= |other| && SO.NoLater(SO.Places(GraphOf(g), path), SO.Places(GraphOf(g), other))
  }

  // Some clean path to s comes before this one.
  ghost predicate Before(g: Setup, s: State, path: seq<Edge>)
  {
    exists q :: BFS.Reaches(GraphOf(g), s, q) && SO.Less(SO.Places(GraphOf(g), q), SO.Places(GraphOf(g), path))
  }

  // A failed report: the first counterexample, its fault, and the counts at that point.
  ghost predicate Reported(g: Setup, r: Report, path: seq<Edge>, order: seq<State>, n: nat)
    requires r.Failed?
  {
    && path != [] && Counterexample(g, path) && r.counterexample == BFS.Labels(GraphOf(g), path)
    && First(g, path)
    && var s := BFS.End(GraphOf(g), path[..|path| - 1]);
    && FailsAt(g, path, s, n, r.fault)
    && (forall i, j :: 0 <= i < j < |order| ==> order[i] != order[j]) && s !in order
    && (forall t :: t in order <==> Before(g, t, path[..|path| - 1]))
    && (forall t :: t in order ==> Shaped(t) && Passed(g, t, |Transitions(t, g.capacity, g.mutation)|))
    && r.edges == EdgeTotal(order, g.capacity, g.mutation) + n + 1
    && r.discovered == |Discovered(g, order) + Targets(Transitions(s, g.capacity, g.mutation)[..n])|
  }

  lemma TargetsPush(es: seq<Edge>, n: nat)
    requires n < |es|
    ensures Targets(es[..n + 1]) == Targets(es[..n]) + {es[n].target}
  {
    assert es[..n + 1] == es[..n] + [es[n]];
  }

  lemma TargetsEnds(es: seq<Edge>)
    ensures Targets(es[..0]) == {} && es[..|es|] == es
  {
  }

  // A state whose first n edges are near has passed them.
  lemma NearPasses(g: Setup, k: Search, s: State, n: nat)
    requires s in k.trail && Shaped(s) && n <= |Transitions(s, g.capacity, g.mutation)|
    requires forall e :: e in Transitions(s, g.capacity, g.mutation)[..n] ==> BFS.Near(GraphOf(g), k, s, e)
    ensures Passed(g, s, n)
  {
    hide Sound, Transitions;
    var out := Transitions(s, g.capacity, g.mutation);
    forall j | 0 <= j < n ensures Sound(s, out[j], g.capacity) {
      assert out[..n][j] == out[j];
      assert BFS.Near(GraphOf(g), k, s, out[j]);
    }
  }

  // The checks that have passed while the edges of s are being checked.
  lemma PassedSoFar(g: Setup, k: Search, s: State, n: nat)
    requires BFS.Expanding(GraphOf(g), k, s, n) && Shaped(s)
    ensures Passed(g, s, n)
    ensures forall t :: t in k.done && Shaped(t) ==> Passed(g, t, |Transitions(t, g.capacity, g.mutation)|)
  {
    hide Sound, Transitions, GraphOf, BFS.Near, BFS.Linked, BFS.Queued, Passed, BFS.Reaches;
    var out := Transitions(s, g.capacity, g.mutation);
    GraphMeans(g, s);
    forall e | e in out[..n] ensures BFS.Near(GraphOf(g), k, s, e) {
      var j :| 0 <= j < n && out[..n][j] == e;
      assert BFS.Near(GraphOf(g), k, s, GraphOf(g).out(s)[j]);
    }
    NearPasses(g, k, s, n);
    forall t | t in k.done && Shaped(t) ensures Passed(g, t, |Transitions(t, g.capacity, g.mutation)|) {
      var es := Transitions(t, g.capacity, g.mutation);
      GraphMeans(g, t);
      assert es[..|es|] == es;
      forall e | e in es ensures BFS.Near(GraphOf(g), k, t, e) {
        assert BFS.Edge(GraphOf(g), t, e);
      }
      NearPasses(g, k, t, |es|);
    }
  }

  lemma RejectFirst(g: Setup, k: Search, s: State, n: nat)
    requires BFS.Expanding(GraphOf(g), k, s, n) && SO.Ranking(GraphOf(g), k, s, n)
    requires n < |GraphOf(g).out(s)| && !GraphOf(g).good(s, GraphOf(g).out(s)[n])
    ensures s in k.trail && First(g, k.trail[s] + [GraphOf(g).out(s)[n]])
  {
    var graph := GraphOf(g);
    hide GraphOf, BFS.Expanding, SO.Ranking, SO.Places, SO.NoLater;
    BFS.Reject(graph, k, s, n);
    ExpandingMeans(g, k, s, n);
    forall other | Counterexample(g, other)
      ensures SO.NoLater(SO.Places(graph, k.trail[s] + [graph.out(s)[n]]), SO.Places(graph, other))
    {
      SO.FirstRejected(graph, k, s, n, other);
    }
  }

  lemma RejectCounterexample(g: Setup, k: Search, s: State, n: nat)
    requires BFS.Expanding(GraphOf(g), k, s, n) && SO.Ranking(GraphOf(g), k, s, n)
    requires n < |GraphOf(g).out(s)| && !GraphOf(g).good(s, GraphOf(g).out(s)[n])
    ensures s in k.trail && var path := k.trail[s] + [GraphOf(g).out(s)[n]];
      Counterexample(g, path) && First(g, path) && BFS.End(GraphOf(g), path[..|path| - 1]) == s
  {
    ExpandingMeans(g, k, s, n);
    hide GraphOf, BFS.Expanding, SO.Ranking, First;
    BFS.Reject(GraphOf(g), k, s, n);
    RejectFirst(g, k, s, n);
    assert (k.trail[s] + [GraphOf(g).out(s)[n]])[..|k.trail[s]|] == k.trail[s];
  }

  lemma JudgedBad(g: Setup, s: State, n: nat, fault: Fault)
    requires Shaped(s) && n < |Transitions(s, g.capacity, g.mutation)|
    requires var e := Transitions(s, g.capacity, g.mutation)[n];
      InRange(s, e.move) && Judge(s, e, g.capacity) == Some(fault)
    ensures GraphOf(g).out(s) == Transitions(s, g.capacity, g.mutation)
    ensures !GraphOf(g).good(s, GraphOf(g).out(s)[n])
  {
    hide Judge, Transitions, GraphOf, Accepted;
    GraphMeans(g, s);
    assert Transitions(s, g.capacity, g.mutation)[n] in Transitions(s, g.capacity, g.mutation);
  }

  lemma RejectFails(g: Setup, k: Search, s: State, n: nat, fault: Fault)
    requires BFS.Expanding(GraphOf(g), k, s, n) && SO.Ranking(GraphOf(g), k, s, n)
    requires Shaped(s) && n < |Transitions(s, g.capacity, g.mutation)|
    requires var e := Transitions(s, g.capacity, g.mutation)[n];
      InRange(s, e.move) && Judge(s, e, g.capacity) == Some(fault)
    ensures s in k.trail
    ensures var path := k.trail[s] + [Transitions(s, g.capacity, g.mutation)[n]];
      Counterexample(g, path) && FailsAt(g, path, s, n, fault) && First(g, path)
  {
    hide Judge, Transitions, Passed, GraphOf, BFS.Expanding, SO.Ranking, First, Counterexample, BFS.End;
    PassedSoFar(g, k, s, n);
    JudgedBad(g, s, n, fault);
    RejectCounterexample(g, k, s, n);
  }

  // Check every edge of one state, queueing the targets seen for the first time.
  method Expand(ghost g: Setup, ghost k0: Search, state: State, queue0: seq<State>, parents0: map<State, Parent>,
                capacity: int, mutation: bool)
    returns (failure: Option<(Fault, seq<Label>)>, edges: nat, queue: seq<State>, parents: map<State, Parent>,
             ghost k: Search, ghost path: seq<Edge>)
    requires g.capacity == capacity && g.mutation == mutation
    requires Shaped(state) && BFS.Closed(GraphOf(g)) && BFS.Expanding(GraphOf(g), k0, state, 0)
    requires SO.Ranking(GraphOf(g), k0, state, 0)
    requires queue0 == k0.queue && parents0 == k0.parents
    ensures queue == k.queue && parents == k.parents && k.done == k0.done && k0.trail.Keys <= k.trail.Keys
    ensures failure.Some? ==>
      && 0 < edges <= |Transitions(state, capacity, mutation)|
      && Counterexample(g, path) && failure.value.1 == BFS.Labels(GraphOf(g), path)
      && First(g, path) && FailsAt(g, path, state, edges - 1, failure.value.0)
      && BFS.Expanding(GraphOf(g), k, state, edges - 1) && SO.Ranking(GraphOf(g), k, state, edges - 1)
      && state in k.trail && path == k.trail[state] + [Transitions(state, capacity, mutation)[edges - 1]]
      && k.trail.Keys == k0.trail.Keys + Targets(Transitions(state, capacity, mutation)[..edges - 1])
    ensures failure.None? ==>
      && edges == |Transitions(state, capacity, mutation)|
      && BFS.Expanding(GraphOf(g), k, state, edges) && SO.Ranking(GraphOf(g), k, state, edges)
      && k.trail.Keys == k0.trail.Keys + Targets(Transitions(state, capacity, mutation))
      && (k.trail.Keys == k0.trail.Keys ==> |queue| == |queue0|)
  {
    hide *;
    ghost var graph := GraphOf(g);
    edges, queue, parents, k, failure, path := 0, queue0, parents0, k0, None, [];
    var out := Transitions(state, capacity, mutation);
    GraphMeans(g, state);
    TargetsEnds(out);
    while edges < |out|
      invariant 0 <= edges <= |out|
      invariant queue == k.queue && parents == k.parents && k.done == k0.done
      invariant BFS.Expanding(graph, k, state, edges) && SO.Ranking(graph, k, state, edges)
      invariant k.trail.Keys == k0.trail.Keys + Targets(out[..edges])
      invariant k0.trail.Keys <= k.trail.Keys && (k.trail.Keys == k0.trail.Keys ==> |queue| == |queue0|)
    {
      var e := out[edges];
      assert e in out;
      var fault := Judge(state, e, capacity);
      ExpandingMeans(g, k, state, edges);
      if fault.Some? {
        var history := BFS.History(graph, k, parents, state, e, LabelOf(e));
        RejectFails(g, k, state, edges, fault.value);
        path := k.trail[state] + [e];
        assert path[..|path| - 1] == k.trail[state];
        edges := edges + 1;
        failure := Some((fault.value, history));
        return;
      }
      TargetsPush(out, edges);
      if e.target !in parents {
        BFS.Discover(graph, k, state, edges);
        SO.RankingFound(graph, k, state, edges);
        BFS.FoundIs(graph, k, state, e);
        parents := parents[e.target := BFS.Via(state, LabelOf(e))];
        queue := queue + [e.target];
        k := BFS.Found(graph, k, state, e);
      } else {
        BFS.Revisit(graph, k, state, edges);
        SO.RankingRevisits(graph, k, state, edges);
      }
      edges := edges + 1;
    }
  }

  lemma ExpandingMeans(g: Setup, k: Search, s: State, n: nat)
    requires BFS.Expanding(GraphOf(g), k, s, n)
    ensures s in k.trail && s !in k.done && Shaped(s) && BFS.Reaches(GraphOf(g), s, k.trail[s])
    ensures BFS.Linked(GraphOf(g), k) && k.parents.Keys == k.trail.Keys <= GraphOf(g).universe
    ensures GraphOf(g).out(s) == Transitions(s, g.capacity, g.mutation)
  {
    hide BFS.Queued, BFS.LinkedAt, BFS.Near;
    assert Discoverable(g, s);
  }

  lemma FrontierMeans(g: Setup, k: Search, depth: nat)
    requires BFS.Frontier(GraphOf(g), k, depth)
    ensures BFS.Searching(GraphOf(g), k, 0) && k.parents.Keys == k.trail.Keys
    ensures k.queue == [] ==> k.done == k.trail.Keys
  {
    hide BFS.LinkedAt, BFS.Near;
  }

  lemma Opening(g: Setup)
    ensures StateError(Initial(g.registers, g.spills), g.capacity).None? <==> g.capacity >= 0
    ensures g.capacity >= 0 ==> BFS.Closed(GraphOf(g))
    ensures g.capacity >= 0 ==>
      var initial := Initial(g.registers, g.spills);
      BFS.Frontier(GraphOf(g), BFS.Search(map[initial := []], map[initial := BFS.Root], {}, [initial]), 0)
    ensures Counted(g, {}, [], 0) && |Ended({})| == 0 && Discovered(g, []) == {Initial(g.registers, g.spills)}
  {
    StartOwned(g);
    StateCheckerExact(Start(g), g.capacity);
    if g.capacity >= 0 {
      GraphClosed(g);
      FirstFrontier(g);
    }
    assert Ended({}) == {};
  }

  lemma CensusOf(g: Setup, states: set<State>, order: seq<State>, edges: nat)
    requires Counted(g, states, order, edges)
    requires forall s :: s in states <==> exists path :: BFS.Reaches(GraphOf(g), s, path)
    requires forall path :: !BFS.Counterexample(GraphOf(g), path)
    ensures Census(g, states, edges) && NoCounterexample(g)
  {
  }

  ghost predicate NoCounterexample(g: Setup)
  {
    forall path :: !Counterexample(g, path)
  }

  // A verified report counts the reachable states, those that are terminal, and their edges.
  ghost predicate VerifiedMeans(g: Setup, r: Report)
    requires r.Verified?
  {
    exists states :: Census(g, states, r.edges) && r.reachable == |states| && r.terminals == |Ended(states)|
  }

  // A failed report, or the state checker's verdict on an initial state it rejects.
  ghost predicate FailureMeans(g: Setup, r: Report)
    requires r.Failed?
  {
    if g.capacity >= 0 then Shortest(g, r.counterexample) && exists path, order, n :: Reported(g, r, path, order, n)
    else r.counterexample == [] && Some(r.fault) == InitialFault(g)
  }

  function InitialFault(g: Setup): Option<Fault>
  {
    var fault := StateError(Initial(g.registers, g.spills), g.capacity);
    if fault.None? then None else Some(InState(fault.value))
  }

  lemma FailureIs(g: Setup, r: Report, path: seq<Edge>, order: seq<State>, n: nat)
    requires r.Failed? && g.capacity >= 0 && Shortest(g, r.counterexample) && Reported(g, r, path, order, n)
    ensures FailureMeans(g, r) && !NoCounterexample(g)
  {
    hide Reported, Counterexample;
  }

  lemma InitialFails(g: Setup, r: Report)
    requires r.Failed? && StateError(Initial(g.registers, g.spills), g.capacity).Some? && r.counterexample == []
    requires r.fault == InState(StateError(Initial(g.registers, g.spills), g.capacity).value)
    ensures g.capacity < 0 && FailureMeans(g, r)
  {
    StartOwned(g);
    StateCheckerExact(Start(g), g.capacity);
  }

  lemma VerifiedIs(g: Setup, r: Report, states: set<State>)
    requires r.Verified? && Census(g, states, r.edges) && r.reachable == |states| && r.terminals == |Ended(states)|
    ensures VerifiedMeans(g, r)
  {
    hide Census, Ended;
  }

  lemma DiscoveredPush(g: Setup, order: seq<State>, s: State)
    requires (forall t :: t in order ==> Shaped(t)) && Shaped(s)
    ensures forall t :: t in order + [s] ==> Shaped(t)
    ensures Discovered(g, order + [s]) == Discovered(g, order) + Targets(Transitions(s, g.capacity, g.mutation))
  {
    assert (order + [s])[..|order|] == order;
    hide Transitions;
  }

  // The report of a failure found on the edge n of s.
  lemma ReportMeans(g: Setup, k: Search, r: Report, path: seq<Edge>, s: State, order: seq<State>, edges: nat, n: nat)
    requires r.Failed? && Counterexample(g, path) && r.counterexample == BFS.Labels(GraphOf(g), path)
    requires First(g, path)
    requires FailsAt(g, path, s, n, r.fault) && BFS.Expanding(GraphOf(g), k, s, n) && SO.Ranking(GraphOf(g), k, s, n)
    requires s in k.trail && path != [] && path[..|path| - 1] == k.trail[s]
    requires Counted(g, k.done, order, edges) && r.edges == edges + n + 1 && s !in k.done
    requires k.trail.Keys == Discovered(g, order) + Targets(Transitions(s, g.capacity, g.mutation)[..n])
    requires r.discovered == |k.trail.Keys|
    ensures Reported(g, r, path, order, n) && Shortest(g, r.counterexample)
    ensures exists other :: Counterexample(g, other)
  {
    hide Counterexample, GraphOf, BFS.Expanding, SO.Ranking, SO.Less, SO.Places, FailsAt, Passed, Transitions,
      EdgeTotal, Discovered, Targets;
    forall t ensures t in order <==> Before(g, t, path[..|path| - 1]) {
      SO.DoneExactly(GraphOf(g), k, s, n, t);
    }
    hide Before;
    FailsEnd(g, path, s, n, r.fault);
    PassedSoFar(g, k, s, n);
    OrderDistinct(k.done, order);
  }

  lemma FailsEnd(g: Setup, path: seq<Edge>, s: State, n: nat, fault: Fault)
    requires FailsAt(g, path, s, n, fault)
    ensures path != [] && BFS.End(GraphOf(g), path[..|path| - 1]) == s
    ensures Shaped(s) && n < |Transitions(s, g.capacity, g.mutation)|
  {
    hide Transitions, Sound, Judge;
  }

  // A list of exactly the members of a set, of the set's size, repeats none.
  lemma {:induction false} OrderDistinct<T>(done: set<T>, order: seq<T>)
    requires |order| == |done| && forall s :: s in order <==> s in done
    ensures forall i, j :: 0 <= i < j < |order| ==> order[i] != order[j]
  {
    if i, j :| 0 <= i < j < |order| && order[i] == order[j] {
      var rest := order[..j] + order[j + 1..];
      MembersBound(rest);
      forall s | s in done ensures s in rest {
        var k :| 0 <= k < |order| && order[k] == s;
        if k == j { assert rest[i] == s; } else { assert rest[if k < j then k else k - 1] == s; }
      }
      var members := set s | s in rest;
      BFS.SubsetSize(done, members);
    }
  }

  lemma {:induction false} MembersBound<T>(list: seq<T>)
    ensures |(set s | s in list)| <= |list|
  {
    if list == [] {
      assert (set s | s in list) == {};
    } else {
      var rest := list[..|list| - 1];
      MembersBound(rest);
      assert (set s | s in list) == (set s | s in rest) + {list[|list| - 1]};
    }
  }

  // Between two states, with the counts so far.
  ghost predicate Surveyed(g: Setup, k: Search, depth: nat, order: seq<State>, edges: nat, terminals: nat)
  {
    && BFS.Frontier(GraphOf(g), k, depth) && SO.Ranked(GraphOf(g), k)
    && Counted(g, k.done, order, edges) && terminals == |Ended(k.done)|
    && (forall t :: t in order ==> Shaped(t)) && k.trail.Keys == Discovered(g, order)
  }

  lemma SurveyStarts(g: Setup)
    requires g.capacity >= 0
    ensures BFS.Closed(GraphOf(g))
    ensures var initial := Initial(g.registers, g.spills);
      Surveyed(g, BFS.Search(map[initial := []], map[initial := BFS.Root], {}, [initial]), 0, [], 0, 0)
  {
    Opening(g);
    var initial := Initial(g.registers, g.spills);
    SO.RankedStart(GraphOf(g), BFS.Search(map[initial := []], map[initial := BFS.Root], {}, [initial]));
    hide GraphOf, BFS.Frontier, SO.Ranked;
  }

  lemma SurveyPops(g: Setup, k: Search, depth: nat, order: seq<State>, edges: nat, terminals: nat)
    requires Surveyed(g, k, depth, order, edges, terminals) && k.queue != []
    ensures k.parents.Keys == k.trail.Keys
    ensures var s, k' := k.queue[0], k.(queue := k.queue[1..]);
      BFS.Expanding(GraphOf(g), k', s, 0) && SO.Ranking(GraphOf(g), k', s, 0) && Shaped(s) && s !in k.done
      && k.trail.Keys <= GraphOf(g).universe
  {
    BFS.Pop(GraphOf(g), k, depth);
    SO.RankedPop(GraphOf(g), k);
    ExpandingMeans(g, k.(queue := k.queue[1..]), k.queue[0], 0);
    hide GraphOf, BFS.Frontier, BFS.Expanding, SO.Ranked, SO.Ranking, Counted, Discovered, Ended;
  }

  lemma SurveyFails(g: Setup, before: Search, k: Search, s: State, depth: nat, order: seq<State>, edges: nat,
                    terminals: nat, r: Report, path: seq<Edge>, n: nat)
    requires g.capacity >= 0 && Surveyed(g, before, depth, order, edges, terminals)
    requires r.Failed? && Counterexample(g, path) && r.counterexample == BFS.Labels(GraphOf(g), path)
    requires First(g, path)
    requires FailsAt(g, path, s, n, r.fault) && BFS.Expanding(GraphOf(g), k, s, n) && k.done == before.done
    requires SO.Ranking(GraphOf(g), k, s, n) && s in k.trail && path != [] && path[..|path| - 1] == k.trail[s]
    requires Shaped(s) && n <= |Transitions(s, g.capacity, g.mutation)|
    requires k.trail.Keys == before.trail.Keys + Targets(Transitions(s, g.capacity, g.mutation)[..n])
    requires r.edges == edges + n + 1 && r.discovered == |k.parents|
    ensures FailureMeans(g, r) && !NoCounterexample(g)
  {
    hide GraphOf, BFS.Frontier, BFS.Expanding, SO.Ranking, First, Counted, Discovered, Ended, FailsAt, Counterexample,
      Transitions, Reported, Targets, FailureMeans, NoCounterexample;
    ExpandingMeans(g, k, s, n);
    assert |k.parents| == |k.parents.Keys|;
    ReportMeans(g, k, r, path, s, order, edges, n);
    FailureIs(g, r, path, order, n);
  }

  lemma SurveyCloses(g: Setup, before: Search, k: Search, s: State, depth: nat, order: seq<State>, edges: nat,
                     terminals: nat, edges': nat, terminals': nat)
    requires Surveyed(g, before, depth, order, edges, terminals) && k.done == before.done && Shaped(s)
    requires BFS.Expanding(GraphOf(g), k, s, |Transitions(s, g.capacity, g.mutation)|)
    requires SO.Ranking(GraphOf(g), k, s, |Transitions(s, g.capacity, g.mutation)|)
    requires edges' == edges + |Transitions(s, g.capacity, g.mutation)|
    requires terminals' == terminals + (if s.terminal.Active? then 0 else 1)
    requires k.trail.Keys == before.trail.Keys + Targets(Transitions(s, g.capacity, g.mutation))
    ensures s in k.trail && k.trail.Keys <= GraphOf(g).universe
    ensures Surveyed(g, k.(done := k.done + {s}), |k.trail[s]|, order + [s], edges', terminals')
  {
    hide GraphOf, BFS.Frontier, BFS.Expanding, SO.Ranked, SO.Ranking, Counted, Discovered, Ended, Transitions, Targets;
    ExpandingMeans(g, k, s, |Transitions(s, g.capacity, g.mutation)|);
    BFS.Close(GraphOf(g), k, s);
    SO.RankingCloses(GraphOf(g), k, s);
    CountedStep(g, k.done, order, edges, s, edges');
    DiscoveredPush(g, order, s);
  }

  lemma SurveyEnds(g: Setup, k: Search, depth: nat, order: seq<State>, edges: nat, terminals: nat, r: Report)
    requires Surveyed(g, k, depth, order, edges, terminals) && k.queue == []
    requires r == Verified(|k.parents|, terminals, edges)
    ensures VerifiedMeans(g, r) && NoCounterexample(g)
  {
    hide GraphOf, BFS.Frontier, Counted, Discovered, Ended, Census, NoCounterexample, VerifiedMeans;
    FrontierMeans(g, k, depth);
    BFS.Conclude(GraphOf(g), k);
    CensusOf(g, k.done, order, edges);
    assert |k.parents| == |k.parents.Keys|;
    VerifiedIs(g, r, k.done);
  }

  method Explore(registers: nat, spills: nat, capacity: int, mutation: bool) returns (report: Report)
    ensures report.Verified? <==> capacity >= 0 && NoCounterexample(Setup(registers, spills, capacity, mutation))
    ensures report.Failed? ==> FailureMeans(Setup(registers, spills, capacity, mutation), report)
    ensures report.Verified? ==> VerifiedMeans(Setup(registers, spills, capacity, mutation), report)
  {
    hide *;
    ghost var g := Setup(registers, spills, capacity, mutation);
    var initial := Initial(registers, spills);
    InitialVerdict(g);
    var initialError := StateError(initial, capacity);
    if initialError.Some? {
      report := Failed(InState(initialError.value), [], 0, 0);
      InitialFails(g, report);
      return;
    }
    SurveyStarts(g);
    var queue := [initial];
    var parents: map<State, Parent> := map[initial := BFS.Root];
    var edges: nat, terminals: nat := 0, 0;
    ghost var k: Search := BFS.Search(map[initial := []], parents, {}, queue);
    ghost var order: seq<State> := [];
    ghost var depth: nat := 0;
    while queue != []
      invariant queue == k.queue && parents == k.parents
      invariant Surveyed(g, k, depth, order, edges, terminals)
      decreases |GraphOf(g).universe - k.trail.Keys|, |queue|
    {
      var state := queue[0];
      ghost var before, k0 := k, k.(queue := queue[1..]);
      SurveyPops(g, k, depth, order, edges, terminals);
      var failure, found;
      ghost var path;
      failure, found, queue, parents, k, path := Expand(g, k0, state, queue[1..], parents, capacity, mutation);
      if failure.Some? {
        report := Failed(failure.value.0, failure.value.1, |parents|, edges + found);
        assert path[..|path| - 1] == k.trail[state];
        SurveyFails(g, before, k, state, depth, order, edges, terminals, report, path, found - 1);
        return;
      }
      ghost var counted, ended := edges, terminals;
      if !state.terminal.Active? { terminals := terminals + 1; }
      edges := edges + found;
      SurveyCloses(g, before, k, state, depth, order, counted, ended, edges, terminals);
      BFS.Progress(GraphOf(g).universe, before.trail.Keys, k.trail.Keys);
      depth, order := |k.trail[state]|, order + [state];
      k := k.(done := k.done + {state});
    }
    report := Verified(|parents|, terminals, edges);
    SurveyEnds(g, k, depth, order, edges, terminals, report);
  }

  lemma InitialVerdict(g: Setup)
    ensures StateError(Initial(g.registers, g.spills), g.capacity).None? <==> g.capacity >= 0
  {
    StartOwned(g);
    StateCheckerExact(Start(g), g.capacity);
  }
}
