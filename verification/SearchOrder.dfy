/** Which shortest counterexample breadth-first search returns: the first one in the order of the
    successor lists. Paths are compared by length, then by the positions of their edges. */
module SearchOrder {
  import opened BreadthFirst

  // ---- Positions ----

  // The first place of an edge in a list.
  function Place<E(==)>(list: seq<E>, e: E): (n: nat)
    ensures n <= |list| && (e in list <==> n < |list|)
    ensures n < |list| ==> list[n] == e
    ensures forall j :: 0 <= j < n ==> list[j] != e
  {
    if list == [] || list[0] == e then 0 else 1 + Place(list[1..], e)
  }

  // Each edge of a path by its place among its state's edges.
  ghost function Places<S, E, L>(g: Graph<S, E, L>, path: seq<E>): (r: seq<nat>)
    ensures |r| == |path|
  {
    if path == [] then []
    else
      var k := |path| - 1;
      Places(g, path[..k]) + [Place(g.out(End(g, path[..k])), path[k])]
  }

  // Shorter, or as long and smaller where they first differ.
  predicate Less(a: seq<nat>, b: seq<nat>)
  {
    |a| < |b| || (|a| == |b| && exists j :: 0 <= j < |a| && a[..j] == b[..j] && a[j] < b[j])
  }

  predicate NoLater(a: seq<nat>, b: seq<nat>)
  {
    a == b || Less(a, b)
  }

  lemma LessTransitive(a: seq<nat>, b: seq<nat>, c: seq<nat>)
    requires Less(a, b) && Less(b, c)
    ensures Less(a, c)
  {
    if |a| == |c| {
      var i :| 0 <= i < |a| && a[..i] == b[..i] && a[i] < b[i];
      var j :| 0 <= j < |b| && b[..j] == c[..j] && b[j] < c[j];
      var m := if i < j then i else j;
      assert a[..m] == b[..m] == c[..m] by {
        assert a[..m] == a[..i][..m] && b[..m] == b[..i][..m] && b[..m] == b[..j][..m] && c[..m] == c[..j][..m];
      }
      if i < j { assert b[i] == b[..j][i] == c[..j][i] == c[i]; }
      if j < i { assert a[j] == a[..i][j] == b[..i][j] == b[j]; }
      assert a[m] < c[m];
    }
  }

  lemma {:induction false} LessTotal(a: seq<nat>, b: seq<nat>)
    ensures Less(a, b) || a == b || Less(b, a)
    ensures !Less(a, a)
    decreases |a|
  {
    if |a| == |b| && a != [] {
      var k := |a| - 1;
      LessTotal(a[..k], b[..k]);
      if a[..k] == b[..k] {
        assert a == a[..k] + [a[k]] && b == b[..k] + [b[k]];
      } else if Less(a[..k], b[..k]) {
        LessAppend(a[..k], b[..k], a[k], b[k]);
        assert a == a[..k] + [a[k]] && b == b[..k] + [b[k]];
      } else {
        LessAppend(b[..k], a[..k], b[k], a[k]);
        assert a == a[..k] + [a[k]] && b == b[..k] + [b[k]];
      }
    }
  }

  lemma LessAppend(a: seq<nat>, b: seq<nat>, x: nat, y: nat)
    requires Less(a, b)
    ensures Less(a + [x], b + [y])
  {
    if |a| == |b| {
      var j :| 0 <= j < |a| && a[..j] == b[..j] && a[j] < b[j];
      assert (a + [x])[..j] == a[..j] && (b + [y])[..j] == b[..j];
    }
  }

  lemma LastDecides(a: seq<nat>, x: nat, y: nat)
    requires x < y
    ensures Less(a + [x], a + [y])
  {
    assert (a + [x])[..|a|] == a == (a + [y])[..|a|];
  }

  lemma NoLaterAppend(a: seq<nat>, b: seq<nat>, x: nat)
    requires NoLater(a, b)
    ensures NoLater(a + [x], b + [x])
  {
    if a != b { LessAppend(a, b, x, x); }
  }

  lemma NoLaterLess(a: seq<nat>, b: seq<nat>, c: seq<nat>)
    requires NoLater(a, b) && Less(b, c)
    ensures Less(a, c)
  {
    if a != b { LessTransitive(a, b, c); }
  }

  lemma NoLaterTransitive(a: seq<nat>, b: seq<nat>, c: seq<nat>)
    requires NoLater(a, b) && NoLater(b, c)
    ensures NoLater(a, c)
  {
    if a != b && b != c { LessTransitive(a, b, c); }
  }

  // ---- The search invariant ----

  ghost function At<S, E, L>(g: Graph<S, E, L>, k: Search<S, E, L>, s: S): seq<nat>
    requires s in k.trail
  {
    Places(g, k.trail[s])
  }

  // The queue is in order, and after every settled state.
  ghost predicate Lined<S(!new), E, L>(g: Graph<S, E, L>, k: Search<S, E, L>, settled: set<S>)
    requires settled <= k.trail.Keys && forall i :: 0 <= i < |k.queue| ==> k.queue[i] in k.trail
  {
    && (forall i, j :: 0 <= i < j < |k.queue| ==> Less(At(g, k, k.queue[i]), At(g, k, k.queue[j])))
    && (forall s, j :: s in settled && 0 <= j < |k.queue| ==> Less(At(g, k, s), At(g, k, k.queue[j])))
  }

  // The trail of an edge's target is no later than the way through the edge.
  ghost predicate Beaten<S, E, L>(g: Graph<S, E, L>, k: Search<S, E, L>, s: S, e: E)
  {
    s in k.trail && g.target(e) in k.trail && NoLater(At(g, k, g.target(e)), At(g, k, s) + [Place(g.out(s), e)])
  }

  // Between two states: what is known comes before anything found through the queue.
  ghost predicate Ranked<S(!new), E(!new), L>(g: Graph<S, E, L>, k: Search<S, E, L>)
  {
    && k.done <= k.trail.Keys && (forall i :: 0 <= i < |k.queue| ==> k.queue[i] in k.trail)
    && Lined(g, k, k.done)
    && (forall s, e :: s in k.done && Edge(g, s, e) ==> Beaten(g, k, s, e))
    && (forall t, j :: t in k.trail && 0 <= j < |k.queue| ==> Less(At(g, k, t), At(g, k, k.queue[j]) + [0]))
  }

  // While the edges of s are being checked: what is known comes before the next edge.
  ghost predicate Ranking<S(!new), E(!new), L>(g: Graph<S, E, L>, k: Search<S, E, L>, s: S, n: nat)
  {
    && k.done + {s} <= k.trail.Keys && (forall i :: 0 <= i < |k.queue| ==> k.queue[i] in k.trail)
    && Lined(g, k, k.done + {s})
    && (forall d, e :: d in k.done && Edge(g, d, e) ==> Beaten(g, k, d, e))
    && (forall d :: d in k.done ==> Less(At(g, k, d), At(g, k, s)))
    && n <= |g.out(s)| && (forall j :: 0 <= j < n ==> Beaten(g, k, s, g.out(s)[j]))
    && (forall t :: t in k.trail ==> Less(At(g, k, t), At(g, k, s) + [n]))
  }

  lemma RankedStart<S(!new), E(!new), L>(g: Graph<S, E, L>, k: Search<S, E, L>)
    requires k.trail == map[g.start := []] && k.done == {} && k.queue == [g.start]
    ensures Ranked(g, k)
  {
  }

  lemma RankedPop<S(!new), E(!new), L>(g: Graph<S, E, L>, k: Search<S, E, L>)
    requires Ranked(g, k) && k.queue != []
    ensures Ranking(g, k.(queue := k.queue[1..]), k.queue[0], 0)
  {
    var s, k' := k.queue[0], k.(queue := k.queue[1..]);
    hide Less, Places;
    forall d, e | d in k'.done && Edge(g, d, e) ensures Beaten(g, k', d, e) {
      assert Beaten(g, k, d, e);
    }
    forall t | t in k'.trail ensures Less(At(g, k', t), At(g, k', s) + [0]) {
      assert Less(At(g, k, t), At(g, k, k.queue[0]) + [0]);
    }
    forall t, j | t in k'.done + {s} && 0 <= j < |k'.queue| ensures Less(At(g, k', t), At(g, k', k'.queue[j])) {
      assert k'.queue[j] == k.queue[j + 1];
    }
  }

  lemma PlacesPush<S, E, L>(g: Graph<S, E, L>, path: seq<E>, e: E)
    ensures Places(g, path + [e]) == Places(g, path) + [Place(g.out(End(g, path)), e)]
  {
    assert (path + [e])[..|path|] == path;
  }

  // The trail of a newly found state ends with the edge that found it.
  lemma FoundPlaces<S(!new), E(!new), L>(g: Graph<S, E, L>, k: Search<S, E, L>, s: S, n: nat)
    requires Ranking(g, k, s, n) && n < |g.out(s)| && g.target(g.out(s)[n]) !in k.trail && Reaches(g, s, k.trail[s])
    ensures var (e, t) := (g.out(s)[n], g.target(g.out(s)[n]));
      && Place(g.out(s), e) == n
      && At(g, Found(g, k, s, e), t) == At(g, k, s) + [n]
      && forall d :: d in k.trail ==> d != t && At(g, Found(g, k, s, e), d) == At(g, k, d)
  {
    var e := g.out(s)[n];
    var p := Place(g.out(s), e);
    assert e in g.out(s);
    forall j | 0 <= j < n ensures g.out(s)[j] != e {
      assert Beaten(g, k, s, g.out(s)[j]);
    }
    PlacesPush(g, k.trail[s], e);
  }

  lemma RankingFound<S(!new), E(!new), L>(g: Graph<S, E, L>, k: Search<S, E, L>, s: S, n: nat)
    requires Ranking(g, k, s, n) && n < |g.out(s)| && g.target(g.out(s)[n]) !in k.trail && Reaches(g, s, k.trail[s])
    ensures Ranking(g, Found(g, k, s, g.out(s)[n]), s, n + 1)
  {
    var k' := Found(g, k, s, g.out(s)[n]);
    FoundIs(g, k, s, g.out(s)[n]);
    EarlierFound(g, k, s, n);
    LinedFound(g, k, s, n);
    BeatenAll(g, k, s, n);
    hide Less, Places, At, Reaches, Place, Beaten, Lined, Edge, Found;
  }

  lemma BeatenAll<S(!new), E(!new), L>(g: Graph<S, E, L>, k: Search<S, E, L>, s: S, n: nat)
    requires Ranking(g, k, s, n) && n < |g.out(s)| && g.target(g.out(s)[n]) !in k.trail && Reaches(g, s, k.trail[s])
    ensures var k' := Found(g, k, s, g.out(s)[n]);
      && (forall d, f :: d in k'.done && Edge(g, d, f) ==> Beaten(g, k', d, f))
      && (forall j :: 0 <= j < n ==> Beaten(g, k', s, g.out(s)[j]))
  {
    hide Less, Places, At, Reaches, Place, Beaten, Lined;
    forall d, f | d in k.done && Edge(g, d, f) ensures Beaten(g, Found(g, k, s, g.out(s)[n]), d, f) {
      BeatenFound(g, k, s, n, d, f);
    }
    forall j | 0 <= j < n ensures Beaten(g, Found(g, k, s, g.out(s)[n]), s, g.out(s)[j]) {
      BeatenFound(g, k, s, n, s, g.out(s)[j]);
    }
  }

  // The found state comes before the edge after the one that found it, and its trail is the way.
  lemma EarlierFound<S(!new), E(!new), L>(g: Graph<S, E, L>, k: Search<S, E, L>, s: S, n: nat)
    requires Ranking(g, k, s, n) && n < |g.out(s)| && g.target(g.out(s)[n]) !in k.trail && Reaches(g, s, k.trail[s])
    ensures var k' := Found(g, k, s, g.out(s)[n]);
      && Beaten(g, k', s, g.out(s)[n])
      && (forall d :: d in k.done ==> Less(At(g, k', d), At(g, k', s)))
      && (forall d :: d in k'.trail ==> Less(At(g, k', d), At(g, k', s) + [n + 1]))
  {
    var k' := Found(g, k, s, g.out(s)[n]);
    FoundPlaces(g, k, s, n);
    LastDecides(At(g, k, s), n, n + 1);
    hide Less, Places, At, Reaches, Place, Lined;
    forall d | d in k.trail ensures Less(At(g, k, d), At(g, k, s) + [n + 1]) {
      LessTransitive(At(g, k, d), At(g, k, s) + [n], At(g, k, s) + [n + 1]);
    }
    hide Beaten;
  }

  lemma BeatenFound<S(!new), E(!new), L>(g: Graph<S, E, L>, k: Search<S, E, L>, s: S, n: nat, d: S, f: E)
    requires Ranking(g, k, s, n) && n < |g.out(s)| && g.target(g.out(s)[n]) !in k.trail && Reaches(g, s, k.trail[s])
    requires Beaten(g, k, d, f)
    ensures Beaten(g, Found(g, k, s, g.out(s)[n]), d, f)
  {
    FoundPlaces(g, k, s, n);
    hide Less, Places, At, Reaches, Place, Lined;
  }

  lemma LinedFound<S(!new), E(!new), L>(g: Graph<S, E, L>, k: Search<S, E, L>, s: S, n: nat)
    requires Ranking(g, k, s, n) && n < |g.out(s)| && g.target(g.out(s)[n]) !in k.trail && Reaches(g, s, k.trail[s])
    ensures var k' := Found(g, k, s, g.out(s)[n]);
      && (forall i :: 0 <= i < |k'.queue| ==> k'.queue[i] in k'.trail) && Lined(g, k', k'.done + {s})
  {
    var k' := Found(g, k, s, g.out(s)[n]);
    FoundPlaces(g, k, s, n);
    hide Less, Places, At, Reaches, Place, Beaten;
    forall i | 0 <= i < |k.queue| ensures k'.queue[i] == k.queue[i] && k.queue[i] in k.trail {
    }
  }

  lemma RankingRevisits<S(!new), E(!new), L>(g: Graph<S, E, L>, k: Search<S, E, L>, s: S, n: nat)
    requires Ranking(g, k, s, n) && n < |g.out(s)| && g.target(g.out(s)[n]) in k.trail
    ensures Ranking(g, k, s, n + 1)
  {
    var e := g.out(s)[n];
    var p := Place(g.out(s), e);
    assert e in g.out(s) && p <= n;
    LastDecides(At(g, k, s), n, n + 1);
    hide Less, Places, At, Place, Lined;
    if p < n { assert Beaten(g, k, s, g.out(s)[p]); }
    forall d | d in k.trail ensures Less(At(g, k, d), At(g, k, s) + [n + 1]) {
      LessTransitive(At(g, k, d), At(g, k, s) + [n], At(g, k, s) + [n + 1]);
    }
  }

  lemma RankingCloses<S(!new), E(!new), L>(g: Graph<S, E, L>, k: Search<S, E, L>, s: S)
    requires Ranking(g, k, s, |g.out(s)|)
    ensures Ranked(g, k.(done := k.done + {s}))
  {
    var k' := k.(done := k.done + {s});
    hide Less, Places, At, Place;
    forall t | t in k'.trail ensures At(g, k', t) == At(g, k, t) {
      SameAt(g, k, k', t);
    }
    forall d, e | d in k'.done && Edge(g, d, e) ensures Beaten(g, k', d, e) {
      if d == s {
        var j :| 0 <= j < |g.out(s)| && g.out(s)[j] == e;
        assert Beaten(g, k, s, g.out(s)[j]);
      } else {
        assert Beaten(g, k, d, e);
      }
    }
    forall t, j | t in k'.trail && 0 <= j < |k'.queue| ensures Less(At(g, k', t), At(g, k', k'.queue[j]) + [0]) {
      var q := k.queue[j];
      LessAppend(At(g, k, s), At(g, k, q), |g.out(s)|, 0);
      LessTransitive(At(g, k, t), At(g, k, s) + [|g.out(s)|], At(g, k, q) + [0]);
    }
  }

  lemma SameAt<S, E, L>(g: Graph<S, E, L>, a: Search<S, E, L>, b: Search<S, E, L>, s: S)
    requires a.trail == b.trail && s in a.trail
    ensures At(g, a, s) == At(g, b, s)
  {
  }

  // ---- The first counterexample ----

  // A clean path that comes before s is already beaten by the trail of its end.
  lemma {:induction false} EarlierDone<S(!new), E(!new), L>(g: Graph<S, E, L>, k: Search<S, E, L>, s: S, n: nat,
                                                            path: seq<E>)
    requires Expanding(g, k, s, n) && Ranking(g, k, s, n) && Clean(g, path) && Less(Places(g, path), At(g, k, s))
    ensures End(g, path) in k.done && NoLater(At(g, k, End(g, path)), Places(g, path))
  {
    hide Less;
    if path == [] {
      BeforeDone(g, k, s, n, path);
    } else {
      var last := |path| - 1;
      var rest, e := path[..last], path[last];
      ShorterLess(Places(g, rest), Places(g, path), At(g, k, s));
      EarlierDone(g, k, s, n, rest);
      var w := End(g, rest);
      assert Beaten(g, k, w, e);
      NoLaterAppend(At(g, k, w), Places(g, rest), Place(g.out(w), e));
      NoLaterTransitive(At(g, k, g.target(e)), At(g, k, w) + [Place(g.out(w), e)], Places(g, path));
      BeforeDone(g, k, s, n, path);
    }
  }

  lemma ShorterLess(a: seq<nat>, b: seq<nat>, c: seq<nat>)
    requires |a| < |b| && Less(b, c)
    ensures Less(a, c)
  {
  }

  // A known state whose trail comes before that of s is done.
  lemma BeforeDone<S(!new), E(!new), L>(g: Graph<S, E, L>, k: Search<S, E, L>, s: S, n: nat, path: seq<E>)
    requires Expanding(g, k, s, n) && Ranking(g, k, s, n) && Less(Places(g, path), At(g, k, s))
    requires End(g, path) in k.trail && NoLater(At(g, k, End(g, path)), Places(g, path))
    ensures End(g, path) in k.done
  {
    var t := End(g, path);
    NoLaterLess(At(g, k, t), Places(g, path), At(g, k, s));
    LessTotal(At(g, k, s), At(g, k, s));
    if t !in k.done && t != s {
      var j :| 0 <= j < |k.queue| && k.queue[j] == t;
      assert Less(At(g, k, s), At(g, k, t));
      LessTransitive(At(g, k, s), At(g, k, t), At(g, k, s));
    }
  }

  // The done states are those that some clean path reaches before the trail of s.
  lemma DoneExactly<S(!new), E(!new), L>(g: Graph<S, E, L>, k: Search<S, E, L>, s: S, n: nat, t: S)
    requires Expanding(g, k, s, n) && Ranking(g, k, s, n)
    ensures s in k.trail
    ensures t in k.done <==> exists q :: Reaches(g, t, q) && Less(Places(g, q), Places(g, k.trail[s]))
  {
    hide Less, Places, Lined;
    if t in k.done {
      assert Reaches(g, t, k.trail[t]) && Less(At(g, k, t), At(g, k, s));
    }
    if q :| Reaches(g, t, q) && Less(Places(g, q), Places(g, k.trail[s])) {
      EarlierDone(g, k, s, n, q);
    }
  }

  lemma {:induction false} PlacesInjective<S(!new), E(!new), L>(g: Graph<S, E, L>, a: seq<E>, b: seq<E>)
    requires Clean(g, a) && Clean(g, b) && Places(g, a) == Places(g, b)
    ensures a == b
    decreases |a|
  {
    if a != [] {
      var k := |a| - 1;
      var p, q := Places(g, a), Places(g, b);
      assert p[..k] == Places(g, a[..k]) && q[..k] == Places(g, b[..k]) && |b| == |a|;
      PlacesInjective(g, a[..k], b[..k]);
      assert p[k] == Place(g.out(End(g, a[..k])), a[k]) && q[k] == Place(g.out(End(g, b[..k])), b[k]);
      assert a == a[..k] + [a[k]] && b == b[..k] + [b[k]];
    }
  }

  // What the search has found good.
  lemma GoodSoFar<S(!new), E(!new), L>(g: Graph<S, E, L>, k: Search<S, E, L>, s: S, n: nat)
    requires Expanding(g, k, s, n)
    ensures s in k.trail && Clean(g, k.trail[s]) && End(g, k.trail[s]) == s
    ensures forall d, e :: d in k.done && Edge(g, d, e) ==> g.good(d, e)
    ensures forall j :: 0 <= j < n ==> g.good(s, g.out(s)[j])
  {
    hide Queued, Linked, Clean;
    assert Reaches(g, s, k.trail[s]);
    forall d, e | d in k.done && Edge(g, d, e) ensures g.good(d, e) {
      assert Near(g, k, d, e);
    }
    forall j | 0 <= j < n ensures g.good(s, g.out(s)[j]) {
      assert Near(g, k, s, g.out(s)[j]);
    }
  }

  // The rejected edge ends the first counterexample of all.
  lemma FirstRejected<S(!new), E(!new), L>(g: Graph<S, E, L>, k: Search<S, E, L>, s: S, n: nat, other: seq<E>)
    requires Expanding(g, k, s, n) && Ranking(g, k, s, n) && n < |g.out(s)| && !g.good(s, g.out(s)[n])
    requires Counterexample(g, other)
    ensures s in k.trail && NoLater(Places(g, k.trail[s] + [g.out(s)[n]]), Places(g, other))
  {
    GoodSoFar(g, k, s, n);
    PlaceRejected(g, k, s, n);
    hide Expanding, Ranking, Less, Places, Place, Clean;
    var e, last := g.out(s)[n], |other| - 1;
    var rest, f := other[..last], other[last];
    PlacesPush(g, k.trail[s], e);
    PlacesPush(g, rest, f);
    assert other == rest + [f];
    NotEarlier(g, k, s, n, rest, f);
    NoLaterThan(At(g, k, s), Places(g, rest), n, Place(g.out(End(g, rest)), f));
  }

  // Before the trail of s there is only what has passed.
  lemma NotEarlier<S(!new), E(!new), L>(g: Graph<S, E, L>, k: Search<S, E, L>, s: S, n: nat, rest: seq<E>, f: E)
    requires Expanding(g, k, s, n) && Ranking(g, k, s, n)
    requires Clean(g, rest) && Edge(g, End(g, rest), f) && !g.good(End(g, rest), f)
    ensures s in k.trail && !Less(Places(g, rest), At(g, k, s))
    ensures Places(g, rest) == At(g, k, s) ==> n <= Place(g.out(End(g, rest)), f)
  {
    GoodSoFar(g, k, s, n);
    hide Expanding, Ranking, Less, Places, Place, Clean;
    if Less(Places(g, rest), At(g, k, s)) { EarlierDone(g, k, s, n, rest); }
    if Places(g, rest) == At(g, k, s) {
      PlacesInjective(g, rest, k.trail[s]);
      PlaceOf(g.out(s), f);
    }
  }

  lemma NoLaterThan(a: seq<nat>, b: seq<nat>, n: nat, i: nat)
    requires !Less(b, a) && (b == a ==> n <= i)
    ensures NoLater(a + [n], b + [i])
  {
    LessTotal(a, b);
    if a != b {
      LessAppend(a, b, n, i);
    } else if n < i {
      LastDecides(a, n, i);
    }
  }

  lemma PlaceOf<E>(list: seq<E>, e: E)
    requires e in list
    ensures Place(list, e) < |list| && list[Place(list, e)] == e
  {
  }

  lemma PlaceRejected<S(!new), E(!new), L>(g: Graph<S, E, L>, k: Search<S, E, L>, s: S, n: nat)
    requires Expanding(g, k, s, n) && n < |g.out(s)| && !g.good(s, g.out(s)[n])
    ensures Place(g.out(s), g.out(s)[n]) == n
  {
    forall j | 0 <= j < n ensures g.out(s)[j] != g.out(s)[n] {
      assert Near(g, k, s, g.out(s)[j]);
    }
    assert g.out(s)[n] in g.out(s);
  }
}
