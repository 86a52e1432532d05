/** Why breadth-first search with parent pointers returns shortest counterexamples.
    The graph is arbitrary: successor lists, a judgment on each edge, and a name for it. */
module BreadthFirst {
  // universe is a finite set that holds every state the search can discover.
  datatype Graph<!S, !E, !L> = Graph(
    start: S,
    out: S -> seq<E>,
    target: E -> S,
    good: (S, E) -> bool,
    name: E -> L,
    universe: set<S>)

  // How a state was first discovered.
  datatype Parent<S, L> = Root | Via(from: S, step: L)

  // trail gives each discovered state one clean path; the edges of the done states have all
  // been checked; the queue holds the other discovered states.
  datatype Search<!S, E, L> = Search(
    trail: map<S, seq<E>>,
    parents: map<S, Parent<S, L>>,
    done: set<S>,
    queue: seq<S>)

  function Labels<S, E, L>(g: Graph<S, E, L>, path: seq<E>): (ls: seq<L>)
    ensures |ls| == |path|
  {
    seq(|path|, i requires 0 <= i < |path| => g.name(path[i]))
  }

  function Reversed<T>(s: seq<T>): (r: seq<T>)
    ensures |r| == |s|
    ensures forall i :: 0 <= i < |s| ==> r[i] == s[|s| - 1 - i]
  {
    seq(|s|, i requires 0 <= i < |s| => s[|s| - 1 - i])
  }

  // The state a path leads to.
  function End<S, E, L>(g: Graph<S, E, L>, path: seq<E>): S
  {
    if path == [] then g.start else g.target(path[|path| - 1])
  }

  ghost predicate Edge<S, E, L>(g: Graph<S, E, L>, s: S, e: E)
  {
    e in g.out(s)
  }

  // A real path every edge of which is good.
  ghost predicate Clean<S, E, L>(g: Graph<S, E, L>, path: seq<E>)
  {
    path != [] ==>
      var k := |path| - 1;
      var s := End(g, path[..k]);
      Clean(g, path[..k]) && Edge(g, s, path[k]) && g.good(s, path[k])
  }

  // A real path whose last edge, and no earlier one, is bad.
  ghost predicate Counterexample<S, E, L>(g: Graph<S, E, L>, path: seq<E>)
  {
    && path != []
    && Clean(g, path[..|path| - 1])
    && Edge(g, End(g, path[..|path| - 1]), path[|path| - 1])
    && !g.good(End(g, path[..|path| - 1]), path[|path| - 1])
  }

  ghost predicate Reaches<S, E, L>(g: Graph<S, E, L>, s: S, path: seq<E>)
  {
    Clean(g, path) && End(g, path) == s
  }

  ghost predicate Closed<S(!new), E(!new), L>(g: Graph<S, E, L>)
  {
    && g.start in g.universe
    && forall s, e :: s in g.universe && Edge(g, s, e) && g.good(s, e) ==> g.target(e) in g.universe
  }

  lemma CleanExtends<S, E, L>(g: Graph<S, E, L>, path: seq<E>, e: E)
    requires Clean(g, path) && Edge(g, End(g, path), e) && g.good(End(g, path), e)
    ensures Clean(g, path + [e]) && End(g, path + [e]) == g.target(e)
  {
    assert (path + [e])[..|path|] == path;
  }

  // ---- The search invariant ----

  ghost predicate Near<S, E, L>(g: Graph<S, E, L>, k: Search<S, E, L>, s: S, e: E)
    requires s in k.trail
  {
    g.good(s, e) && g.target(e) in k.trail && |k.trail[g.target(e)]| <= |k.trail[s]| + 1
  }

  // Every state not done is at least depth edges away.
  ghost predicate Searching<S(!new), E(!new), L>(g: Graph<S, E, L>, k: Search<S, E, L>, depth: nat)
  {
    && g.start in k.trail && k.trail[g.start] == []
    && k.trail.Keys <= g.universe
    && (forall s :: s in k.trail ==> Reaches(g, s, k.trail[s]))
    && k.done <= k.trail.Keys
    && (forall s :: s in k.trail && s !in k.done ==> |k.trail[s]| >= depth)
    && (forall s, e :: s in k.done && Edge(g, s, e) ==> Near(g, k, s, e))
  }

  // The queue holds the discovered states outside settled, nearest first.
  ghost predicate Queued<S(!new), E, L>(k: Search<S, E, L>, settled: set<S>, depth: nat)
    requires settled <= k.trail.Keys
  {
    && (forall s :: s in settled ==> |k.trail[s]| <= depth)
    && (forall i :: 0 <= i < |k.queue| ==> k.queue[i] in k.trail && k.queue[i] !in settled)
    && (forall s :: s in k.trail && s !in settled ==> s in k.queue)
    && (forall i, j :: 0 <= i < j < |k.queue| ==>
          k.queue[i] != k.queue[j] && |k.trail[k.queue[i]]| <= |k.trail[k.queue[j]]|)
    && (forall i :: 0 <= i < |k.queue| ==> depth <= |k.trail[k.queue[i]]| <= depth + 1)
  }

  // Parent pointers are the last steps of the trails.
  ghost predicate Linked<S(!new), E(!new), L>(g: Graph<S, E, L>, k: Search<S, E, L>)
  {
    && k.parents.Keys == k.trail.Keys
    && forall s :: s in k.trail ==> LinkedAt(g, k, s)
  }

  ghost predicate LinkedAt<S, E, L>(g: Graph<S, E, L>, k: Search<S, E, L>, s: S)
    requires s in k.trail && s in k.parents
  {
    var path := k.trail[s];
    match k.parents[s]
    case Root => path == []
    case Via(from, step) =>
      && path != [] && from in k.trail
      && k.trail[from] == path[..|path| - 1]
      && step == g.name(path[|path| - 1])
  }

  // Between two states.
  ghost predicate Frontier<S(!new), E(!new), L>(g: Graph<S, E, L>, k: Search<S, E, L>, depth: nat)
  {
    Searching(g, k, 0) && Linked(g, k) && Queued(k, k.done, depth)
  }

  // While the edges of s are being checked: the first n of them have passed.
  ghost predicate Expanding<S(!new), E(!new), L>(g: Graph<S, E, L>, k: Search<S, E, L>, s: S, n: nat)
  {
    && Searching(g, k, 0) && Linked(g, k)
    && s in k.trail && s !in k.done
    && Queued(k, k.done + {s}, |k.trail[s]|)
    && n <= |g.out(s)|
    && forall j :: 0 <= j < n ==> Near(g, k, s, g.out(s)[j])
  }

  lemma {:induction false} Nearest<S(!new), E(!new), L>(g: Graph<S, E, L>, k: Search<S, E, L>, depth: nat, path: seq<E>)
    requires Searching(g, k, depth)
    requires Clean(g, path) && (|path| <= depth || k.done == k.trail.Keys)
    ensures End(g, path) in k.trail && |k.trail[End(g, path)]| <= |path|
  {
    if path != [] {
      Nearest(g, k, depth, path[..|path| - 1]);
    }
  }

  lemma NoShorter<S(!new), E(!new), L>(g: Graph<S, E, L>, k: Search<S, E, L>, depth: nat, path: seq<E>)
    requires Searching(g, k, depth) && Counterexample(g, path)
    ensures |path| >= depth + 1 && k.done != k.trail.Keys
  {
    if |path| <= depth || k.done == k.trail.Keys {
      Nearest(g, k, depth, path[..|path| - 1]);
    }
  }

  lemma Pop<S(!new), E(!new), L>(g: Graph<S, E, L>, k: Search<S, E, L>, depth: nat)
    requires Frontier(g, k, depth) && k.queue != []
    ensures Expanding(g, k.(queue := k.queue[1..]), k.queue[0], 0)
  {
    var s, k' := k.queue[0], k.(queue := k.queue[1..]);
    PopQueued(k, depth);
    forall d, e | d in k'.done && Edge(g, d, e) ensures Near(g, k', d, e) {
      assert Near(g, k, d, e);
    }
  }

  lemma PopQueued<S(!new), E, L>(k: Search<S, E, L>, depth: nat)
    requires k.done <= k.trail.Keys && Queued(k, k.done, depth) && k.queue != []
    ensures k.queue[0] in k.trail && k.queue[0] !in k.done
    ensures Queued(k.(queue := k.queue[1..]), k.done + {k.queue[0]}, |k.trail[k.queue[0]]|)
  {
    forall s | s in k.trail && s !in k.done + {k.queue[0]} ensures s in k.queue[1..] {
      assert s in k.queue;
    }
  }

  // The search after discovering the target of e from s.
  ghost function Found<S, E, L>(g: Graph<S, E, L>, k: Search<S, E, L>, s: S, e: E): Search<S, E, L>
    requires s in k.trail
  {
    var t := g.target(e);
    k.(trail := k.trail[t := k.trail[s] + [e]],
       parents := k.parents[t := Via(s, g.name(e))],
       queue := k.queue + [t])
  }

  lemma FoundIs<S, E, L>(g: Graph<S, E, L>, k: Search<S, E, L>, s: S, e: E)
    requires s in k.trail
    ensures var k', t := Found(g, k, s, e), g.target(e);
      && k'.queue == k.queue + [t] && k'.parents == k.parents[t := Via(s, g.name(e))]
      && k'.done == k.done && k'.trail.Keys == k.trail.Keys + {t}
  {
  }

  lemma FoundSearching<S(!new), E(!new), L>(g: Graph<S, E, L>, k: Search<S, E, L>, s: S, e: E)
    requires Closed(g) && Searching(g, k, 0) && s in k.trail
    requires Edge(g, s, e) && g.good(s, e) && g.target(e) !in k.trail
    ensures Searching(g, Found(g, k, s, e), 0)
  {
    CleanExtends(g, k.trail[s], e);
    var k' := Found(g, k, s, e);
    forall d, f | d in k'.done && Edge(g, d, f) ensures Near(g, k', d, f) {
      assert Near(g, k, d, f);
    }
  }

  lemma FoundQueued<S(!new), E, L>(g: Graph<S, E, L>, k: Search<S, E, L>, settled: set<S>, s: S, e: E)
    requires s in settled && settled <= k.trail.Keys && g.target(e) !in k.trail
    requires Queued(k, settled, |k.trail[s]|)
    ensures Queued(Found(g, k, s, e), settled, |k.trail[s]|)
  {
  }

  lemma FoundLinked<S(!new), E(!new), L>(g: Graph<S, E, L>, k: Search<S, E, L>, s: S, e: E)
    requires Linked(g, k) && s in k.trail && g.target(e) !in k.trail
    ensures Linked(g, Found(g, k, s, e))
  {
    assert (k.trail[s] + [e])[..|k.trail[s]|] == k.trail[s];
  }

  lemma FoundNear<S(!new), E(!new), L>(g: Graph<S, E, L>, k: Search<S, E, L>, s: S, e: E)
    requires s in k.trail && g.target(e) !in k.trail && g.good(s, e)
    ensures Near(g, Found(g, k, s, e), s, e)
  {
  }

  lemma NearGrows<S(!new), E(!new), L>(g: Graph<S, E, L>, k: Search<S, E, L>, s: S, e: E, d: S, f: E)
    requires s in k.trail && g.target(e) !in k.trail && d in k.trail && Near(g, k, d, f)
    ensures Near(g, Found(g, k, s, e), d, f)
  {
  }

  lemma FoundPassed<S(!new), E(!new), L>(g: Graph<S, E, L>, k: Search<S, E, L>, s: S, n: nat)
    requires s in k.trail && n < |g.out(s)|
    requires g.good(s, g.out(s)[n]) && g.target(g.out(s)[n]) !in k.trail
    requires forall j :: 0 <= j < n ==> Near(g, k, s, g.out(s)[j])
    ensures forall j :: 0 <= j < n + 1 ==> Near(g, Found(g, k, s, g.out(s)[n]), s, g.out(s)[j])
  {
    var e := g.out(s)[n];
    FoundNear(g, k, s, e);
    forall j | 0 <= j < n ensures Near(g, Found(g, k, s, e), s, g.out(s)[j]) {
      NearGrows(g, k, s, e, s, g.out(s)[j]);
    }
  }

  // A newly found target joins the queue.
  lemma Discover<S(!new), E(!new), L>(g: Graph<S, E, L>, k: Search<S, E, L>, s: S, n: nat)
    requires Closed(g) && Expanding(g, k, s, n) && n < |g.out(s)|
    requires g.good(s, g.out(s)[n]) && g.target(g.out(s)[n]) !in k.trail
    ensures Expanding(g, Found(g, k, s, g.out(s)[n]), s, n + 1)
  {
    var e := g.out(s)[n];
    assert Edge(g, s, e) && k.done + {s} <= k.trail.Keys;
    hide Searching, Linked, LinkedAt, Queued, Near, Closed, Edge;
    FoundPassed(g, k, s, n);
    FoundSearching(g, k, s, e);
    FoundQueued(g, k, k.done + {s}, s, e);
    FoundLinked(g, k, s, e);
  }

  // An edge to a known state needs no work: that state is near enough.
  lemma Revisit<S(!new), E(!new), L>(g: Graph<S, E, L>, k: Search<S, E, L>, s: S, n: nat)
    requires Expanding(g, k, s, n) && n < |g.out(s)|
    requires g.good(s, g.out(s)[n]) && g.target(g.out(s)[n]) in k.trail
    ensures Expanding(g, k, s, n + 1)
  {
    var t := g.target(g.out(s)[n]);
    assert t in k.done + {s} || t in k.queue;
  }

  // A bad edge ends a shortest counterexample.
  lemma Reject<S(!new), E(!new), L>(g: Graph<S, E, L>, k: Search<S, E, L>, s: S, n: nat)
    requires Expanding(g, k, s, n) && n < |g.out(s)| && !g.good(s, g.out(s)[n])
    ensures Counterexample(g, k.trail[s] + [g.out(s)[n]])
    ensures forall other :: Counterexample(g, other) ==> |k.trail[s]| + 1 <= |other|
  {
    assert (k.trail[s] + [g.out(s)[n]])[..|k.trail[s]|] == k.trail[s];
    forall t | t in k.trail && t !in k.done ensures |k.trail[t]| >= |k.trail[s]| {
      assert t == s || t in k.queue;
    }
    forall other | Counterexample(g, other) ensures |k.trail[s]| + 1 <= |other| {
      NoShorter(g, k, |k.trail[s]|, other);
    }
  }

  // All edges of s have passed.
  lemma Close<S(!new), E(!new), L>(g: Graph<S, E, L>, k: Search<S, E, L>, s: S)
    requires Expanding(g, k, s, |g.out(s)|)
    ensures Frontier(g, k.(done := k.done + {s}), |k.trail[s]|)
  {
    hide Searching, Near;
    forall e | Edge(g, s, e) ensures Near(g, k, s, e) {
      var j :| 0 <= j < |g.out(s)| && g.out(s)[j] == e;
    }
    hide Edge;
    CloseSearching(g, k, s);
  }

  lemma CloseSearching<S(!new), E(!new), L>(g: Graph<S, E, L>, k: Search<S, E, L>, s: S)
    requires Searching(g, k, 0) && s in k.trail
    requires forall e :: Edge(g, s, e) ==> Near(g, k, s, e)
    ensures Searching(g, k.(done := k.done + {s}), 0)
  {
    var k' := k.(done := k.done + {s});
    forall d, e | d in k'.done && Edge(g, d, e) ensures Near(g, k', d, e) {
      assert Near(g, k, d, e);
    }
  }

  lemma Conclude<S(!new), E(!new), L>(g: Graph<S, E, L>, k: Search<S, E, L>)
    requires Searching(g, k, 0) && k.done == k.trail.Keys
    ensures forall path :: !Counterexample(g, path)
    ensures forall s :: s in k.trail <==> exists path :: Reaches(g, s, path)
  {
    forall path ensures !Counterexample(g, path) {
      if Counterexample(g, path) { NoShorter(g, k, 0, path); }
    }
    forall s ensures s in k.trail <==> exists path :: Reaches(g, s, path) {
      if s in k.trail { assert Reaches(g, s, k.trail[s]); }
      if path :| Reaches(g, s, path) { Nearest(g, k, 0, path); }
    }
  }

  lemma {:induction false} SubsetSize<T>(a: set<T>, b: set<T>)
    requires a <= b
    ensures |a| <= |b|
  {
    if a != {} {
      var x :| x in a;
      SubsetSize(a - {x}, b - {x});
    }
  }

  lemma LabelsPush<S, E, L>(g: Graph<S, E, L>, path: seq<E>, e: E)
    ensures Labels(g, path + [e]) == Labels(g, path) + [g.name(e)]
  {
  }

  lemma ReversedPush<T>(s: seq<T>, x: T)
    ensures Reversed(s + [x]) == [x] + Reversed(s)
  {
  }

  // Discovering a state uses up the universe.
  lemma Progress<S>(universe: set<S>, known: set<S>, found: set<S>)
    requires known <= found <= universe
    ensures known == found || |universe - found| < |universe - known|
  {
    if known != found {
      assert exists s :: s in found && s !in known;
      var s :| s in found && s !in known;
      SubsetSize(universe - found, universe - known - {s});
    }
  }

  // Walk the parent pointers back to the start.
  method History<S(==, !new), E(!new), L(!new)>(ghost g: Graph<S, E, L>, ghost k: Search<S, E, L>,
                                                parents: map<S, Parent<S, L>>, s: S, ghost e: E, last: L)
    returns (history: seq<L>)
    requires Linked(g, k) && parents == k.parents && s in k.trail && last == g.name(e)
    ensures history == Labels(g, k.trail[s] + [e])
  {
    var backwards := [last];
    var cursor := s;
    LabelsPush(g, k.trail[s], e);
    while parents[cursor].Via?
      invariant cursor in k.trail
      invariant Labels(g, k.trail[cursor]) + Reversed(backwards) == Labels(g, k.trail[s] + [e])
      decreases |k.trail[cursor]|
    {
      var Via(from, step) := parents[cursor];
      StepBack(g, k, cursor, backwards);
      cursor, backwards := from, backwards + [step];
    }
    history := Reversed(backwards);
  }

  lemma StepBack<S(!new), E(!new), L>(g: Graph<S, E, L>, k: Search<S, E, L>, cursor: S, backwards: seq<L>)
    requires cursor in k.trail && cursor in k.parents && LinkedAt(g, k, cursor) && k.parents[cursor].Via?
    ensures var Via(from, step) := k.parents[cursor];
      from in k.trail && |k.trail[from]| < |k.trail[cursor]|
      && Labels(g, k.trail[from]) + Reversed(backwards + [step]) == Labels(g, k.trail[cursor]) + Reversed(backwards)
  {
    hide Labels, Reversed;
    var Via(from, step) := k.parents[cursor];
    var path := k.trail[cursor];
    assert path == path[..|path| - 1] + [path[|path| - 1]];
    LabelsPush(g, k.trail[from], path[|path| - 1]);
    ReversedPush(backwards, step);
    assert Labels(g, k.trail[from]) + ([step] + Reversed(backwards))
      == (Labels(g, k.trail[from]) + [step]) + Reversed(backwards);
  }
}
