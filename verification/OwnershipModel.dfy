/** The abstract ownership machine of theory/check_model.py: one object, any number of
    acquisitions of it, and aliases held in registers and spill slots. Names that the
    program spells as text are constructors here; any other text is an Other value. */
module OwnershipModel {
  import opened Common

  datatype Cause = NullCause | StaleCause

  datatype Terminal =
    | Active
    | Finished
    | Exhausted
    | Faulted(cause: Cause, releasing: bool)
    | OtherReason(text: string)

  // Token 0 is NULL; token i + 1 names acquisition i.
  datatype State = State(
    live: seq<bool>,
    registers: seq<int>,
    spills: seq<int>,
    explicit: seq<int>,
    cleanup: seq<int>,
    refcount: int,
    terminal: Terminal)

  // An edge's kind together with its operands.
  datatype Move =
    | Acquire(r: nat)
    | AcquireNull(r: nat)
    | Copy(dst: nat, src: nat)
    | Reload(dst: nat, slot: nat)
    | Spill(slot: nat, r: nat)
    | Read(r: nat)
    | Release(r: nat)
    | Finish

  datatype Answer =
    | Success
    | Null
    | Stale
    | Copied
    | Value42
    | Consumed
    | Return
    | Exhaustion
    | OtherAnswer(text: string)

  datatype Edge = Edge(move: Move, answer: Answer, target: State)

  // What an edge prints in a history: everything but its target.
  datatype Label = Label(move: Move, answer: Answer)

  predicate Named(tokens: seq<int>, n: int)
  {
    forall i :: 0 <= i < |tokens| ==> 0 <= tokens[i] <= n
  }

  // Enough shape for every indexing expression of the machine to be defined.
  predicate Shaped(s: State)
  {
    && |s.explicit| == |s.cleanup| == |s.live|
    && Named(s.registers, |s.live|)
    && Named(s.spills, |s.live|)
  }

  predicate InRange(s: State, m: Move)
  {
    var nr, ns := |s.registers|, |s.spills|;
    match m
    case Acquire(r) => r < nr
    case AcquireNull(r) => r < nr
    case Copy(dst, src) => dst < nr && src < nr
    case Reload(dst, slot) => dst < nr && slot < ns
    case Spill(slot, r) => slot < ns && r < nr
    case Read(r) => r < nr
    case Release(r) => r < nr
    case Finish => true
  }

  function Initial(registers: nat, spills: nat): (s: State)
    ensures Shaped(s)
  {
    State([], seq(registers, _ => 0), seq(spills, _ => 0), [], [], 1, Active)
  }

  function Terminate(s: State, reason: Terminal): State
    requires Shaped(s)
  {
    s.(live := seq(|s.live|, _ => false),
       cleanup := seq(|s.live|, i requires 0 <= i < |s.live| => s.cleanup[i] + Bits(s.live)[i]),
       refcount := s.refcount - Count(s.live),
       terminal := reason)
  }

  // The token grants authority: it is not NULL and its acquisition is unconsumed.
  predicate Holds(s: State, token: int)
    requires Shaped(s) && 0 <= token <= |s.live|
  {
    token != 0 && s.live[token - 1]
  }

  function CauseOf(token: int): Cause
  {
    if token == 0 then NullCause else StaleCause
  }

  function CauseAnswer(c: Cause): Answer
  {
    if c.NullCause? then Null else Stale
  }

  // The acquisitions a successful release consumes: one, or every live one under the mutation.
  function Victims(s: State, token: int, mutation: bool): (v: seq<bool>)
    ensures |v| == |s.live|
    ensures forall i :: 0 <= i < |v| ==> v[i] == (s.live[i] && (mutation || i == token - 1))
  {
    seq(|s.live|, i requires 0 <= i < |s.live| => s.live[i] && (mutation || i == token - 1))
  }

  function Consume(s: State, token: int, mutation: bool): State
    requires Shaped(s)
  {
    var v := Victims(s, token, mutation);
    s.(live := seq(|v|, i requires 0 <= i < |v| => s.live[i] && !v[i]),
       explicit := seq(|v|, i requires 0 <= i < |v| => s.explicit[i] + Bits(v)[i]),
       refcount := s.refcount - Count(v))
  }

  function Use(s: State, m: Move, token: int, valid: Edge, releasing: bool): Edge
    requires Shaped(s) && 0 <= token <= |s.live|
  {
    if Holds(s, token) then valid
    else
      var cause := CauseOf(token);
      Edge(m, CauseAnswer(cause), Terminate(s, Faulted(cause, releasing)))
  }

  // The single outgoing edge for one kind and operand list.
  function Fire(s: State, m: Move, capacity: int, mutation: bool): Edge
    requires Shaped(s) && InRange(s, m)
  {
    var n := |s.live|;
    match m
    case Acquire(r) =>
      if n == capacity then Edge(m, Exhaustion, Terminate(s, Exhausted))
      else Edge(m, Success, s.(live := s.live + [true],
                               registers := s.registers[r := n + 1],
                               explicit := s.explicit + [0],
                               cleanup := s.cleanup + [0],
                               refcount := s.refcount + 1))
    case AcquireNull(r) => Edge(m, Null, s.(registers := s.registers[r := 0]))
    case Copy(dst, src) => Edge(m, Copied, s.(registers := s.registers[dst := s.registers[src]]))
    case Reload(dst, slot) => Edge(m, Copied, s.(registers := s.registers[dst := s.spills[slot]]))
    case Spill(slot, r) => Edge(m, Copied, s.(spills := s.spills[slot := s.registers[r]]))
    case Read(r) => Use(s, m, s.registers[r], Edge(m, Value42, s), false)
    case Release(r) =>
      Use(s, m, s.registers[r], Edge(m, Consumed, Consume(s, s.registers[r], mutation)), true)
    case Finish => Edge(m, Return, Terminate(s, Finished))
  }

  // Registers in the order acquisitions are tried: empty ones first, stable otherwise.
  function Holding(registers: seq<int>, full: bool, upto: nat): (order: seq<nat>)
    requires upto <= |registers|
    ensures forall r :: r in order <==> 0 <= r < upto && (registers[r] != 0) == full
  {
    if upto == 0 then []
    else
      var rest := Holding(registers, full, upto - 1);
      if (registers[upto - 1] != 0) == full then rest + [upto - 1] else rest
  }

  function EmptyFirst(registers: seq<int>): (order: seq<nat>)
    ensures forall r :: r in order <==> 0 <= r < |registers|
  {
    Holding(registers, false, |registers|) + Holding(registers, true, |registers|)
  }

  function AcquireMoves(order: seq<nat>): (ms: seq<Move>)
    ensures forall m :: m in ms <==> (m.Acquire? || m.AcquireNull?) && m.r in order
  {
    if order == [] then []
    else
      var k := |order| - 1;
      AcquireMoves(order[..k]) + [Acquire(order[k]), AcquireNull(order[k])]
  }

  function CopyMoves(dst: nat, upto: nat): (ms: seq<Move>)
    ensures forall m :: m in ms <==> m.Copy? && m.dst == dst && m.src < upto
  {
    if upto == 0 then [] else CopyMoves(dst, upto - 1) + [Copy(dst, upto - 1)]
  }

  function ReloadMoves(dst: nat, upto: nat): (ms: seq<Move>)
    ensures forall m :: m in ms <==> m.Reload? && m.dst == dst && m.slot < upto
  {
    if upto == 0 then [] else ReloadMoves(dst, upto - 1) + [Reload(dst, upto - 1)]
  }

  function SpillMovesTo(slot: nat, upto: nat): (ms: seq<Move>)
    ensures forall m :: m in ms <==> m.Spill? && m.slot == slot && m.r < upto
  {
    if upto == 0 then [] else SpillMovesTo(slot, upto - 1) + [Spill(slot, upto - 1)]
  }

  function AliasMoves(nr: nat, ns: nat, upto: nat): (ms: seq<Move>)
    ensures forall m :: m in ms <==>
      (m.Copy? && m.dst < upto && m.src < nr) || (m.Reload? && m.dst < upto && m.slot < ns)
  {
    if upto == 0 then []
    else AliasMoves(nr, ns, upto - 1) + CopyMoves(upto - 1, nr) + ReloadMoves(upto - 1, ns)
  }

  function SpillMoves(nr: nat, upto: nat): (ms: seq<Move>)
    ensures forall m :: m in ms <==> m.Spill? && m.slot < upto && m.r < nr
  {
    if upto == 0 then [] else SpillMoves(nr, upto - 1) + SpillMovesTo(upto - 1, nr)
  }

  function UseMoves(upto: nat): (ms: seq<Move>)
    ensures forall m :: m in ms <==> (m.Read? || m.Release?) && m.r < upto
  {
    if upto == 0 then [] else UseMoves(upto - 1) + [Read(upto - 1), Release(upto - 1)]
  }

  // The moves that define a register or a slot.
  function DefiningMoves(registers: seq<int>, ns: nat): (ms: seq<Move>)
    ensures forall m :: m in ms <==>
      || ((m.Acquire? || m.AcquireNull?) && m.r < |registers|)
      || (m.Copy? && m.dst < |registers| && m.src < |registers|)
      || (m.Reload? && m.dst < |registers| && m.slot < ns)
      || (m.Spill? && m.slot < ns && m.r < |registers|)
  {
    AcquireMoves(EmptyFirst(registers)) + AliasMoves(|registers|, ns, |registers|) + SpillMoves(|registers|, ns)
  }

  lemma AllMoves(s: State, a: seq<Move>, b: seq<Move>)
    requires forall m :: m in a <==>
      || ((m.Acquire? || m.AcquireNull?) && m.r < |s.registers|)
      || (m.Copy? && m.dst < |s.registers| && m.src < |s.registers|)
      || (m.Reload? && m.dst < |s.registers| && m.slot < |s.spills|)
      || (m.Spill? && m.slot < |s.spills| && m.r < |s.registers|)
    requires forall m :: m in b <==> (m.Read? || m.Release?) && m.r < |s.registers|
    ensures forall m :: m in a + b + [Finish] <==> InRange(s, m)
  {
    forall m ensures m in a + b + [Finish] <==> InRange(s, m) {
      assert m in a + b + [Finish] <==> m in a || m in b || m == Finish;
    }
  }

  // Every enabled move, in the order the generator yields them.
  function Moves(s: State): (ms: seq<Move>)
    ensures forall m :: m in ms <==> InRange(s, m)
  {
    var a, b := DefiningMoves(s.registers, |s.spills|), UseMoves(|s.registers|);
    AllMoves(s, a, b);
    a + b + [Finish]
  }

  function FireAll(s: State, ms: seq<Move>, capacity: int, mutation: bool): (es: seq<Edge>)
    requires Shaped(s) && forall m :: m in ms ==> InRange(s, m)
    ensures |es| == |ms|
    ensures forall i :: 0 <= i < |ms| ==> ms[i] in ms && es[i] == Fire(s, ms[i], capacity, mutation)
  {
    if ms == [] then []
    else
      var k := |ms| - 1;
      FireAll(s, ms[..k], capacity, mutation) + [Fire(s, ms[k], capacity, mutation)]
  }

  function Transitions(s: State, capacity: int, mutation: bool): (es: seq<Edge>)
    requires Shaped(s)
  {
    if s.terminal.Active? then FireAll(s, Moves(s), capacity, mutation) else []
  }

  lemma FiringsOf(s: State, ms: seq<Move>, capacity: int, mutation: bool, e: Edge)
    requires Shaped(s) && forall m :: m in ms ==> InRange(s, m)
    ensures e in FireAll(s, ms, capacity, mutation) <==>
      e.move in ms && e == Fire(s, e.move, capacity, mutation)
  {
    var es := FireAll(s, ms, capacity, mutation);
    if e in es {
      var i :| 0 <= i < |es| && es[i] == e;
      assert e == Fire(s, ms[i], capacity, mutation) && e.move == ms[i];
    }
    if e.move in ms && e == Fire(s, e.move, capacity, mutation) {
      var i :| 0 <= i < |ms| && ms[i] == e.move;
      assert es[i] == e;
    }
  }

  // The generator yields exactly the edges of the enabled moves.
  lemma TransitionsAreFirings(s: State, capacity: int, mutation: bool, e: Edge)
    requires Shaped(s)
    ensures e in Transitions(s, capacity, mutation) <==>
      s.terminal.Active? && InRange(s, e.move) && e == Fire(s, e.move, capacity, mutation)
  {
    FiringsOf(s, Moves(s), capacity, mutation, e);
  }

  // e is one of the edges the generator yields in s.
  ghost predicate Enabled(s: State, e: Edge, capacity: int, mutation: bool)
  {
    Shaped(s) && e in Transitions(s, capacity, mutation)
  }

  lemma EnabledMeans(s: State, e: Edge, capacity: int, mutation: bool)
    ensures Enabled(s, e, capacity, mutation) <==>
      && Shaped(s) && s.terminal.Active? && InRange(s, e.move)
      && e == Fire(s, e.move, capacity, mutation)
  {
    hide Fire, Transitions;
    if Shaped(s) { TransitionsAreFirings(s, capacity, mutation, e); }
  }

  // ---- The order of the edges ----

  // Where a move stands in the generator's loops: its loop, then the loop's variables in turn.
  // Registers that hold NULL are tried before the others.
  datatype Key = Key(loop: nat, first: nat, second: nat, third: nat)

  function KeyOf(registers: seq<int>, m: Move): Key
  {
    match m
    case Acquire(r) => Key(0, if r < |registers| && registers[r] != 0 then 1 else 0, r, 0)
    case AcquireNull(r) => Key(0, if r < |registers| && registers[r] != 0 then 1 else 0, r, 1)
    case Copy(dst, src) => Key(1, dst, 0, src)
    case Reload(dst, slot) => Key(1, dst, 1, slot)
    case Spill(slot, r) => Key(2, slot, r, 0)
    case Read(r) => Key(3, r, 0, 0)
    case Release(r) => Key(3, r, 1, 0)
    case Finish => Key(4, 0, 0, 0)
  }

  predicate Precedes(a: Key, b: Key)
  {
    || a.loop < b.loop
    || (a.loop == b.loop && a.first < b.first)
    || (a.loop == b.loop && a.first == b.first && a.second < b.second)
    || (a.loop == b.loop && a.first == b.first && a.second == b.second && a.third < b.third)
  }

  // Strictly increasing, so without repetition.
  predicate Ordered(registers: seq<int>, ms: seq<Move>)
  {
    forall i, j :: 0 <= i < j < |ms| ==> Precedes(KeyOf(registers, ms[i]), KeyOf(registers, ms[j]))
  }

  lemma OrderedConcat(registers: seq<int>, a: seq<Move>, b: seq<Move>)
    requires Ordered(registers, a) && Ordered(registers, b)
    requires forall m, n :: m in a && n in b ==> Precedes(KeyOf(registers, m), KeyOf(registers, n))
    ensures Ordered(registers, a + b)
  {
    hide KeyOf, Precedes;
    forall i, j | 0 <= i < j < |a + b|
      ensures Precedes(KeyOf(registers, (a + b)[i]), KeyOf(registers, (a + b)[j]))
    {
      if i < |a| <= j { assert a[i] in a && b[j - |a|] in b; }
    }
  }

  // Empty registers before full ones, each class by number.
  predicate Earlier(registers: seq<int>, a: nat, b: nat)
  {
    a < |registers| && b < |registers|
    && if (registers[a] != 0) == (registers[b] != 0) then a < b else registers[a] == 0
  }

  predicate Sorted(registers: seq<int>, order: seq<nat>)
  {
    forall i, j :: 0 <= i < j < |order| ==> Earlier(registers, order[i], order[j])
  }

  lemma {:induction false} HoldingSorted(registers: seq<int>, full: bool, upto: nat)
    requires upto <= |registers|
    ensures Sorted(registers, Holding(registers, full, upto))
  {
    if upto > 0 {
      HoldingSorted(registers, full, upto - 1);
      var rest, h := Holding(registers, full, upto - 1), Holding(registers, full, upto);
      forall i, j | 0 <= i < j < |h| ensures Earlier(registers, h[i], h[j]) {
        assert h[i] == rest[i] && rest[i] in rest;
        if j < |rest| { assert h[j] == rest[j]; }
      }
    }
  }

  lemma EmptyFirstSorted(registers: seq<int>)
    ensures Sorted(registers, EmptyFirst(registers))
  {
    var n := |registers|;
    var empty, full := Holding(registers, false, n), Holding(registers, true, n);
    HoldingSorted(registers, false, n);
    HoldingSorted(registers, true, n);
    var order := EmptyFirst(registers);
    hide Holding;
    forall i, j | 0 <= i < j < |order| ensures Earlier(registers, order[i], order[j]) {
      if i < |empty| <= j { assert empty[i] in empty && full[j - |empty|] in full; }
    }
  }

  lemma AcquiresAppend(registers: seq<int>, before: seq<Move>, rest: seq<nat>, r: nat)
    requires Ordered(registers, before) && forall q :: q in rest ==> Earlier(registers, q, r)
    requires forall m :: m in before ==> (m.Acquire? || m.AcquireNull?) && m.r in rest
    ensures Ordered(registers, before + [Acquire(r), AcquireNull(r)])
  {
    assert Ordered(registers, [Acquire(r), AcquireNull(r)]);
    hide Ordered;
    OrderedConcat(registers, before, [Acquire(r), AcquireNull(r)]);
  }

  lemma {:induction false} AcquireMovesOrdered(registers: seq<int>, order: seq<nat>)
    requires Sorted(registers, order)
    ensures Ordered(registers, AcquireMoves(order))
  {
    if order != [] {
      var rest, r := order[..|order| - 1], order[|order| - 1];
      AcquireMovesOrdered(registers, rest);
      hide Ordered, Earlier;
      AcquiresAppend(registers, AcquireMoves(rest), rest, r);
    }
  }

  lemma {:induction false} CopyMovesOrdered(registers: seq<int>, dst: nat, upto: nat)
    ensures Ordered(registers, CopyMoves(dst, upto)) && Ordered(registers, ReloadMoves(dst, upto))
    ensures Ordered(registers, SpillMovesTo(dst, upto))
  {
    if upto > 0 {
      CopyMovesOrdered(registers, dst, upto - 1);
      OrderedConcat(registers, CopyMoves(dst, upto - 1), [Copy(dst, upto - 1)]);
      OrderedConcat(registers, ReloadMoves(dst, upto - 1), [Reload(dst, upto - 1)]);
      OrderedConcat(registers, SpillMovesTo(dst, upto - 1), [Spill(dst, upto - 1)]);
    }
  }

  lemma OrderedAliases(registers: seq<int>, a: seq<Move>, b: seq<Move>, c: seq<Move>, dst: nat)
    requires Ordered(registers, a) && Ordered(registers, b) && Ordered(registers, c)
    requires forall m :: m in a ==> (m.Copy? && m.dst < dst) || (m.Reload? && m.dst < dst)
    requires forall m :: m in b ==> m.Copy? && m.dst == dst
    requires forall m :: m in c ==> m.Reload? && m.dst == dst
    ensures Ordered(registers, a + b + c)
  {
    hide Ordered;
    OrderedConcat(registers, a, b);
    assert forall m :: m in a + b ==> m in a || m in b;
    OrderedConcat(registers, a + b, c);
  }

  lemma AliasesOrdered(registers: seq<int>, nr: nat, ns: nat, dst: nat, upto: nat)
    requires upto == dst + 1 && Ordered(registers, AliasMoves(nr, ns, dst))
    ensures Ordered(registers, AliasMoves(nr, ns, upto))
  {
    hide Ordered;
    CopyMovesOrdered(registers, dst, nr);
    CopyMovesOrdered(registers, dst, ns);
    var a, b, c := AliasMoves(nr, ns, dst), CopyMoves(dst, nr), ReloadMoves(dst, ns);
    assert AliasMoves(nr, ns, upto) == a + b + c;
    hide AliasMoves, CopyMoves, ReloadMoves;
    OrderedAliases(registers, a, b, c, dst);
  }

  lemma {:induction false} AliasMovesOrdered(registers: seq<int>, nr: nat, ns: nat, upto: nat)
    ensures Ordered(registers, AliasMoves(nr, ns, upto))
  {
    hide CopyMoves, ReloadMoves, KeyOf, Precedes;
    if upto > 0 {
      hide Ordered, AliasMoves;
      AliasMovesOrdered(registers, nr, ns, upto - 1);
      AliasesOrdered(registers, nr, ns, upto - 1, upto);
    }
  }

  lemma {:induction false} SpillMovesOrdered(registers: seq<int>, nr: nat, upto: nat)
    ensures Ordered(registers, SpillMoves(nr, upto))
  {
    if upto > 0 {
      SpillMovesOrdered(registers, nr, upto - 1);
      CopyMovesOrdered(registers, upto - 1, nr);
      OrderedConcat(registers, SpillMoves(nr, upto - 1), SpillMovesTo(upto - 1, nr));
    }
  }

  lemma {:induction false} UseMovesOrdered(registers: seq<int>, upto: nat)
    ensures Ordered(registers, UseMoves(upto))
  {
    if upto > 0 {
      UseMovesOrdered(registers, upto - 1);
      OrderedConcat(registers, UseMoves(upto - 1), [Read(upto - 1), Release(upto - 1)]);
    }
  }

  lemma DefiningMovesOrdered(registers: seq<int>, ns: nat)
    ensures Ordered(registers, DefiningMoves(registers, ns))
  {
    hide Ordered;
    var nr := |registers|;
    EmptyFirstSorted(registers);
    AcquireMovesOrdered(registers, EmptyFirst(registers));
    AliasMovesOrdered(registers, nr, ns, nr);
    SpillMovesOrdered(registers, nr, ns);
    var a, b, c := AcquireMoves(EmptyFirst(registers)), AliasMoves(nr, ns, nr), SpillMoves(nr, ns);
    OrderedConcat(registers, a, b);
    OrderedConcat(registers, a + b, c);
  }

  lemma OrderedFinish(registers: seq<int>, a: seq<Move>, b: seq<Move>)
    requires Ordered(registers, a) && Ordered(registers, b)
    requires forall m :: m in a ==> KeyOf(registers, m).loop < 3
    requires forall m :: m in b ==> KeyOf(registers, m).loop == 3
    ensures Ordered(registers, a + b + [Finish])
  {
    hide Ordered;
    OrderedOne(registers, Finish);
    OrderedConcat(registers, a, b);
    assert forall m :: m in a + b ==> m in a || m in b;
    OrderedConcat(registers, a + b, [Finish]);
  }

  lemma OrderedOne(registers: seq<int>, m: Move)
    ensures Ordered(registers, [m])
  {
  }

  lemma MovesOrdered(s: State)
    ensures Ordered(s.registers, Moves(s))
  {
    hide Ordered, DefiningMoves, UseMoves, InRange;
    DefiningMovesOrdered(s.registers, |s.spills|);
    UseMovesOrdered(s.registers, |s.registers|);
    OrderedFinish(s.registers, DefiningMoves(s.registers, |s.spills|), UseMoves(|s.registers|));
  }

  // The order of the generator's nested loops: acquisitions, each with its NULL outcome, into
  // empty registers first; copies and reloads by destination; spills by slot; uses by register,
  // the read before the release; then the return. Strict, so no edge comes twice.
  ghost predicate InOrder(registers: seq<int>, es: seq<Edge>)
  {
    forall i, j :: 0 <= i < j < |es| ==> Precedes(KeyOf(registers, es[i].move), KeyOf(registers, es[j].move))
  }

  lemma TransitionsOrdered(s: State, capacity: int, mutation: bool)
    requires Shaped(s)
    ensures InOrder(s.registers, Transitions(s, capacity, mutation))
  {
    hide Moves, Fire, FireAll, InRange, KeyOf, Precedes;
    if s.terminal.Active? {
      MovesOrdered(s);
      var ms, es := Moves(s), Transitions(s, capacity, mutation);
      forall i | 0 <= i < |ms| ensures es[i].move == ms[i] {
        FireMoves(s, ms[i], capacity, mutation);
      }
    }
  }

  lemma FireMoves(s: State, m: Move, capacity: int, mutation: bool)
    requires Shaped(s) && InRange(s, m)
    ensures Fire(s, m, capacity, mutation).move == m
  {
  }

  lemma {:induction false} InOrderUnique(registers: seq<int>, a: seq<Edge>, b: seq<Edge>)
    requires InOrder(registers, a) && InOrder(registers, b) && forall e :: e in a <==> e in b
    ensures a == b
  {
    hide KeyOf;
    assert (a != [] ==> a[0] in b) && (b != [] ==> b[0] in a);
    if a != [] {
      HeadOnce(registers, a);
      HeadOnce(registers, b);
      assert a == [a[0]] + a[1..] && b == [b[0]] + b[1..];
      forall e ensures e in a[1..] <==> e in b[1..] {
        assert e in a <==> e == a[0] || e in a[1..];
        assert e in b <==> e == b[0] || e in b[1..];
      }
      InOrderUnique(registers, a[1..], b[1..]);
    }
  }

  // The first edge precedes every other.
  lemma HeadOnce(registers: seq<int>, es: seq<Edge>)
    requires InOrder(registers, es) && es != []
    ensures es[0] !in es[1..] && InOrder(registers, es[1..])
    ensures forall e :: e in es[1..] ==> Precedes(KeyOf(registers, es[0].move), KeyOf(registers, e.move))
  {
    hide KeyOf;
  }

  // The generator's sequence is the only one with every enabled edge, and no other, in order.
  lemma TransitionsUnique(s: State, capacity: int, mutation: bool, es: seq<Edge>)
    requires Shaped(s) && InOrder(s.registers, es)
    requires forall e :: e in es <==>
      s.terminal.Active? && InRange(s, e.move) && e == Fire(s, e.move, capacity, mutation)
    ensures es == Transitions(s, capacity, mutation)
  {
    hide Fire, Transitions, Shaped, InRange;
    TransitionsOrdered(s, capacity, mutation);
    forall e ensures e in es <==> e in Transitions(s, capacity, mutation) {
      TransitionsAreFirings(s, capacity, mutation, e);
    }
    InOrderUnique(s.registers, es, Transitions(s, capacity, mutation));
  }

  // An acquisition into a register is followed at once by the provider's NULL.
  lemma AcquireThenNull(s: State, capacity: int, mutation: bool, i: nat)
    requires Shaped(s) && i < |Transitions(s, capacity, mutation)|
    requires Transitions(s, capacity, mutation)[i].move.Acquire?
    ensures var es := Transitions(s, capacity, mutation);
      i + 1 < |es| && es[i + 1].move == AcquireNull(es[i].move.r)
  {
    hide Transitions, Fire, Shaped;
    var es := Transitions(s, capacity, mutation);
    var r := es[i].move.r;
    TransitionsOrdered(s, capacity, mutation);
    TransitionsAreFirings(s, capacity, mutation, es[i]);
    FireMoves(s, AcquireNull(r), capacity, mutation);
    var e := Fire(s, AcquireNull(r), capacity, mutation);
    TransitionsAreFirings(s, capacity, mutation, e);
    var j :| 0 <= j < |es| && es[j] == e;
    NullFollows(s.registers, es, i, j);
  }

  lemma NullFollows(registers: seq<int>, es: seq<Edge>, i: nat, j: nat)
    requires InOrder(registers, es) && i < |es| && j < |es|
    requires es[i].move.Acquire? && es[j].move == AcquireNull(es[i].move.r)
    ensures j == i + 1
  {
    ghost var between := if i + 1 < |es| then es[i + 1].move else Finish;
    assert Precedes(KeyOf(registers, es[i].move), KeyOf(registers, es[j].move));
    NothingBetween(registers, es[i].move.r, between);
  }

  lemma NothingBetween(registers: seq<int>, r: nat, m: Move)
    ensures !(Precedes(KeyOf(registers, Acquire(r)), KeyOf(registers, m))
              && Precedes(KeyOf(registers, m), KeyOf(registers, AcquireNull(r))))
  {
  }
}
