/** What each emitted template does on the machine: immediates are rebuilt, registers are
    cleared, and the image holds every template at its recorded place. */
module Templates {
  import opened Capabilities
  import opened Common
  import B = Bpf
  import opened AdmissionFixpoint
  import opened Emission
  import opened NativeMachine

  // ---- Immediates ----

  lemma ModUnique(v: nat, m: nat, a: nat, r: nat)
    requires 0 < m && r < m && v == a * m + r
    ensures v % m == r
  {
    var q := v / m;
    assert v == q * m + v % m;
    assert (q - a) * m == q * m - a * m;
    if a < q { MulLeq(1, q - a, m); } else if q < a { MulLeq(1, a - q, m); }
  }

  lemma ModExtend(v: nat, P: nat, B: nat)
    requires 0 < P && 0 < B
    ensures 0 < P * B && v % (P * B) == v % P + (v / P % B) * P
  {
    var q := v / P;
    var a, b, r := q / B, q % B, v % P;
    MulLeq(b, B - 1, P);
    MulLeq(1, B, P);
    assert v == q * P + r && q == a * B + b;
    assert q * P == a * (P * B) + b * P;
    assert (B - 1) * P == P * B - P;
    ModUnique(v, P * B, a, b * P + r);
  }

  // The chunks below k + 1 give the value modulo their range; the next one extends it.
  lemma ChunksExtend(v: nat, k: nat)
    ensures Insert(v % Power16(k + 1), Chunk(v, k + 1), k + 1) == v % Power16(k + 2)
  {
    var P := Power16(k + 1);
    ModExtend(v, P, 0x10000);
    assert Power16(k + 2) == P * 0x10000;
    LowChunkIsZero(v % P, k + 1);
  }

  lemma LowChunkIsZero(low: nat, k: nat)
    requires low < Power16(k)
    ensures Chunk(low, k) == 0
  {
    ModUnique(low, Power16(k), 0, low);
    assert low / Power16(k) == 0;
  }

  lemma FourChunks()
    ensures Power16(1) == 0x10000 && Power16(4) == U64
  {
    assert Power16(1) == 0x10000 * Power16(0);
    assert Power16(2) == 0x10000 * Power16(1);
    assert Power16(3) == 0x10000 * Power16(2);
    assert Power16(4) == 0x10000 * Power16(3);
  }

  lemma ExecOne(env: Env, w: Native, m: Machine)
    requires Shape(m)
    ensures ExecAll(env, [w], m) == Exec(env, w, m)
  {
    assert [w][1..] == [];
    hide Exec;
  }

  lemma MovKInserts(env: Env, reg: nat, v: nat, k: nat, n: Machine)
    requires Shape(n) && reg < 31 && n.c[reg] == Data(Scalar(v % Power16(k)))
    requires k > 0
    ensures EncodeMovK(reg, Chunk(v, k), 16 * k) == MovK(reg, Chunk(v, k), 16 * k)
    ensures Exec(env, MovK(reg, Chunk(v, k), 16 * k), n)
      == Going(n.(pc := n.pc + 1, c := n.c[reg := Data(Scalar(v % Power16(k + 1)))]))
  {
    ChunksExtend(v, k - 1);
    hide Insert, Chunk, Power16;
    assert 16 * k / 16 == k;
  }

  lemma FirstChunk(env: Env, reg: nat, v: nat, m: Machine)
    requires Shape(m) && reg < 31
    ensures ExecAll(env, ImmediateUpTo(reg, v, 0), m)
      == Going(m.(pc := m.pc + 1, c := m.c[reg := Data(Scalar(v % Power16(1)))]))
    ensures |ImmediateUpTo(reg, v, 0)| == 1 && Straight(ImmediateUpTo(reg, v, 0)[0])
  {
    hide ExecAll;
    FourChunks();
    ExecOne(env, MovZ(reg, v % 0x10000, 0), m);
  }

  // The MOVZ and MOVK words rebuild any 64-bit value, whatever the register held.
  lemma {:induction false} ImmediateRebuilds(env: Env, reg: nat, v: nat, k: nat, m: Machine)
    requires Shape(m) && reg < 31
    ensures ExecAll(env, ImmediateUpTo(reg, v, k), m)
      == Going(m.(pc := m.pc + k + 1, c := m.c[reg := Data(Scalar(v % Power16(k + 1)))]))
    ensures forall i :: 0 <= i <= k ==> Straight(ImmediateUpTo(reg, v, k)[i])
    decreases k
  {
    hide Chunk, Power16, Exec, ExecAll, Insert;
    if k == 0 {
      FirstChunk(env, reg, v, m);
    } else {
      ImmediateRebuilds(env, reg, v, k - 1, m);
      var a, w := ImmediateUpTo(reg, v, k - 1), MovK(reg, Chunk(v, k), 16 * k);
      var n := ExecAll(env, a, m).m;
      MovKInserts(env, reg, v, k, n);
      ExecAllAppend(env, a, [w], m);
      ExecOne(env, w, n);
      assert n.c[reg := Data(Scalar(v % Power16(k + 1)))] == m.c[reg := Data(Scalar(v % Power16(k + 1)))];
    }
  }

  lemma ImmediateLoads(env: Env, reg: nat, v: nat, m: Machine)
    requires Shape(m) && reg < 31 && v < U64
    ensures ExecAll(env, ImmediateWords(reg, v), m) == Going(m.(pc := m.pc + 4, c := m.c[reg := Data(Scalar(v))]))
    ensures forall i :: 0 <= i < 4 ==> Straight(ImmediateWords(reg, v)[i])
  {
    hide ImmediateUpTo, ExecAll, Power16;
    ImmediateRebuilds(env, reg, v, 3, m);
    FourChunks();
  }

  // ---- The scrub ----

  // Registers below reg that a scrub clears.
  function Cleared(entering: bool, reg: nat, c: seq<Reg>): (n: seq<Reg>)
    requires |c| == 31
    ensures |n| == 31
    ensures forall i :: 0 <= i < 31 ==> n[i] == if i < reg && !Kept(entering, i) then Data(Scalar(0)) else c[i]
  {
    seq(31, i requires 0 <= i < 31 => if i < reg && !Kept(entering, i) then Data(Scalar(0)) else c[i])
  }

  lemma {:induction false} ClearClears(env: Env, entering: bool, reg: nat, m: Machine)
    requires Shape(m) && reg <= 30
    ensures ExecAll(env, ClearUpTo(entering, reg), m)
      == Going(m.(pc := m.pc + |ClearUpTo(entering, reg)|, c := Cleared(entering, reg, m.c)))
    ensures forall i :: 0 <= i < |ClearUpTo(entering, reg)| ==> Straight(ClearUpTo(entering, reg)[i])
    decreases reg
  {
    hide Exec, ExecAll, Cleared;
    if reg == 0 {
      ExecNone(env, m);
      NoneCleared(entering, m.c);
    } else {
      ClearClears(env, entering, reg - 1, m);
      var a := ClearUpTo(entering, reg - 1);
      var n := ExecAll(env, a, m).m;
      if Kept(entering, reg - 1) {
        assert a + [] == a;
        KeptCleared(entering, reg, m.c);
      } else {
        var w := MovZ(reg - 1, 0, 0);
        ExecAllAppend(env, a, [w], m);
        ExecOne(env, w, n);
        ZeroMoves(env, reg - 1, n);
        NextCleared(entering, reg, m.c);
      }
    }
  }

  lemma NoneCleared(entering: bool, c: seq<Reg>)
    requires |c| == 31
    ensures Cleared(entering, 0, c) == c
  {
  }

  lemma KeptCleared(entering: bool, reg: nat, c: seq<Reg>)
    requires |c| == 31 && 0 < reg && Kept(entering, reg - 1)
    ensures Cleared(entering, reg, c) == Cleared(entering, reg - 1, c)
  {
  }

  lemma NextCleared(entering: bool, reg: nat, c: seq<Reg>)
    requires |c| == 31 && 0 < reg <= 30 && !Kept(entering, reg - 1)
    ensures Cleared(entering, reg, c) == Cleared(entering, reg - 1, c)[reg - 1 := Data(Scalar(0))]
  {
  }

  lemma ExecNone(env: Env, m: Machine)
    requires Shape(m)
    ensures ExecAll(env, [], m) == Going(m)
  {
  }

  lemma ZeroMoves(env: Env, reg: nat, n: Machine)
    requires Shape(n) && reg < 31
    ensures Exec(env, MovZ(reg, 0, 0), n) == Going(n.(pc := n.pc + 1, c := n.c[reg := Data(Scalar(0))]))
  {
  }

  // ---- Where the image holds each template ----

  lemma HoldsPrefix(code: seq<Native>, at: nat, a: seq<Native>, b: seq<Native>)
    requires HoldsAt(code, at, a + b)
    ensures HoldsAt(code, at, a) && HoldsAt(code, at + |a|, b)
  {
    forall i | 0 <= i < |a| ensures code[at + i] == a[i] {
      assert (a + b)[i] == a[i];
    }
    forall i | 0 <= i < |b| ensures code[at + |a| + i] == b[i] {
      assert (a + b)[|a| + i] == b[i] && code[at + (|a| + i)] == b[i];
    }
  }

  lemma {:induction false} BodyHolds(code: seq<Native>, p: B.Program, layout: Layout, start: nat, n: nat, pc: nat)
    requires pc < n <= |p.insns| && Formed(p) && |layout.offset| == |p.insns| + 1
    requires HoldsAt(code, start, Body(p, layout, start, n))
    ensures HoldsAt(code, Offset(p, start, pc), Block(p, layout, pc, Offset(p, start, pc)))
    decreases n
  {
    hide Block;
    var a, b := Body(p, layout, start, n - 1), Block(p, layout, n - 1, Offset(p, start, n - 1));
    HoldsPrefix(code, start, a, b);
    if pc < n - 1 { BodyHolds(code, p, layout, start, n - 1, pc); }
  }

  // The parts of the final image, each at its recorded place.
  lemma ImageHolds(build: Build, p: B.Program)
    requires Formed(p)
    ensures var (code, l, start) := (Image(build, p), Recorded(build, p), PrologueLength(build));
      && HoldsAt(code, 0, Prologue(build, l))
      && HoldsAt(code, start, Body(p, l, start, |p.insns|))
      && l.restricted < |code| && code[l.restricted] == RetClr
      && l.executive == l.restricted + 1 && HoldsAt(code, l.executive, Epilogue(build))
      && |code| == l.executive + |Epilogue(build)|
  {
    var start := PrologueLength(build);
    var l := Recorded(build, p);
    TemplateLengths(build, l);
    assert l.restricted == Offset(p, start, |p.insns|) && l.executive == l.restricted + 1;
    hide Prologue, Body, Epilogue, Recorded, Formed, Offset, HoldsAt;
    PartsHold(Prologue(build, l), Body(p, l, start, |p.insns|), RetClr, Epilogue(build));
  }

  lemma PartsHold(a: seq<Native>, b: seq<Native>, w: Native, c: seq<Native>)
    ensures var code := a + b + [w] + c;
      && HoldsAt(code, 0, a) && HoldsAt(code, |a|, b) && code[|a| + |b|] == w
      && HoldsAt(code, |a| + |b| + 1, c)
  {
  }

  lemma BlockAt(build: Build, p: B.Program, pc: nat)
    requires Formed(p) && pc < |p.insns|
    ensures var (l, start) := (Recorded(build, p), PrologueLength(build));
      HoldsAt(Image(build, p), Offset(p, start, pc), Block(p, l, pc, Offset(p, start, pc)))
  {
    hide Image, Block, Recorded, Formed;
    ImageHolds(build, p);
    BodyHolds(Image(build, p), p, Recorded(build, p), PrologueLength(build), |p.insns|, pc);
  }
}
