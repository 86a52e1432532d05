/** Compiler correctness for the whole image, from its first word to its return: the compiled
    function makes the gate calls of the BPF program and returns its scalar, or returns zero when
    entry or the gate refuses, with the caller's registers restored and nothing left behind. */
module CompilerCorrect {
  import opened Capabilities
  import opened Common
  import B = Bpf
  import A = Admission
  import S = AdmissionSound
  import opened AdmissionFixpoint
  import opened Emission
  import opened NativeMachine
  import opened Templates
  import opened BodyCorrect

  // ---- The executive frame ----

  // The caller's registers hold integers.
  predicate Integers(c: seq<Reg>)
  {
    |c| == 31 && forall i :: 19 <= i <= 30 ==> c[i].Data?
  }

  function Saved(c: seq<Reg>, i: nat): nat
    requires Integers(c) && 19 <= i <= 30
  {
    c[i].c.address
  }

  // The callee-saved pairs as the prologue stacks them.
  function Pairs(c: seq<Reg>): (f: seq<Slot>)
    requires Integers(c)
    ensures |f| == 6
  {
    [Two(Saved(c, 27), Saved(c, 28)), Two(Saved(c, 25), Saved(c, 26)), Two(Saved(c, 23), Saved(c, 24)),
     Two(Saved(c, 21), Saved(c, 22)), Two(Saved(c, 19), Saved(c, 20)), Two(Saved(c, 29), Saved(c, 30))]
  }

  lemma ExecCons(env: Env, w: Native, rest: seq<Native>, m: Machine)
    requires Shape(m)
    ensures ExecAll(env, [w] + rest, m)
      == if Exec(env, w, m).Going? then ExecAll(env, rest, Exec(env, w, m).m) else Exec(env, w, m)
  {
    hide Exec;
    assert ([w] + rest)[1..] == rest;
  }

  lemma PushRuns(env: Env, a: nat, b: nat, rest: seq<Native>, m: Machine)
    requires Shape(m) && a < 31 && b < 31 && m.c[a].Data? && m.c[b].Data?
    ensures ExecAll(env, [Push(a, b)] + rest, m)
      == ExecAll(env, rest, m.(pc := m.pc + 1, frame := [Two(m.c[a].c.address, m.c[b].c.address)] + m.frame))
  {
    ExecCons(env, Push(a, b), rest, m);
  }

  lemma PushesRun(env: Env, m: Machine)
    requires Integers(m.c)
    ensures ExecAll(env, PUSHES, m) == Going(m.(pc := m.pc + 5, frame := Pairs(m.c)[..5] + m.frame))
  {
    hide ExecAll, Exec;
    assert PUSHES == [Push(19, 20)] + ([Push(21, 22)] + ([Push(23, 24)] + ([Push(25, 26)] + ([Push(27, 28)] + []))));
    PushRuns(env, 19, 20, [Push(21, 22)] + ([Push(23, 24)] + ([Push(25, 26)] + ([Push(27, 28)] + []))), m);
    var f1 := [Two(Saved(m.c, 19), Saved(m.c, 20))] + m.frame;
    PushRuns(env, 21, 22, [Push(23, 24)] + ([Push(25, 26)] + ([Push(27, 28)] + [])), m.(pc := m.pc + 1, frame := f1));
    var f2 := [Two(Saved(m.c, 21), Saved(m.c, 22))] + f1;
    PushRuns(env, 23, 24, [Push(25, 26)] + ([Push(27, 28)] + []), m.(pc := m.pc + 2, frame := f2));
    var f3 := [Two(Saved(m.c, 23), Saved(m.c, 24))] + f2;
    PushRuns(env, 25, 26, [Push(27, 28)] + [], m.(pc := m.pc + 3, frame := f3));
    var f4 := [Two(Saved(m.c, 25), Saved(m.c, 26))] + f3;
    PushRuns(env, 27, 28, [], m.(pc := m.pc + 4, frame := f4));
    var f5 := [Two(Saved(m.c, 27), Saved(m.c, 28))] + f4;
    ExecNone(env, m.(pc := m.pc + 5, frame := f5));
    assert f5 == Pairs(m.c)[..5] + m.frame;
  }

  predicate AllStraight(w: seq<Native>)
  {
    forall i :: 0 <= i < |w| ==> Straight(w[i])
  }

  // Two straight blocks in sequence.
  lemma RunsThen(env: Env, a: seq<Native>, b: seq<Native>, m: Machine, n: Machine)
    requires Shape(m) && Shape(n) && ExecAll(env, a, m) == Going(n)
    ensures ExecAll(env, a + b, m) == ExecAll(env, b, n)
    ensures AllStraight(a) && AllStraight(b) ==> AllStraight(a + b)
  {
    ExecAllAppend(env, a, b, m);
    hide ExecAll;
  }

  lemma SkipRuns(env: Env, enabled: bool, w: Native, m: Machine)
    requires Shape(m) && (w.BtiJc? || w.PaciAsp? || w.AutiAsp?)
    ensures ExecAll(env, Optional(enabled, w), m) == Going(m.(pc := m.pc + |Optional(enabled, w)|))
    ensures AllStraight(Optional(enabled, w))
  {
    if enabled { ExecOne(env, w, m); } else { ExecNone(env, m); }
  }

  lemma MarksRun(env: Env, build: Build, m: Machine)
    requires Integers(m.c)
    ensures ExecAll(env, EntryMarks(build), m)
      == Going(m.(pc := m.pc + |EntryMarks(build)|, c := m.c[9 := Data(Scalar(Saved(m.c, 30)))]))
    ensures AllStraight(EntryMarks(build))
  {
    hide ExecAll;
    var a, b, d := Optional(build.bti, BtiJc), [Mov(9, LR), Nop], Optional(build.pac, PaciAsp);
    SkipRuns(env, build.bti, BtiJc, m);
    var m1 := m.(pc := m.pc + |a|);
    var m2 := m1.(pc := m1.pc + 2, c := m1.c[9 := Data(Scalar(Saved(m.c, 30)))]);
    assert b == [Mov(9, LR)] + [Nop];
    ExecCons(env, Mov(9, LR), [Nop], m1);
    ExecOne(env, Nop, m1.(pc := m1.pc + 1, c := m2.c));
    hide ExecAll, Exec, Optional;
    SkipRuns(env, build.pac, PaciAsp, m2);
    RunsThen(env, a, b, m, m1);
    RunsThen(env, a + b, d, m, m2);
  }

  // The value of x29 once the caller's pair is pushed.
  function FramePointer(env: Env, m: Machine): Reg
  {
    Data(Scalar(StackPointer(env, |m.frame| + 1)))
  }

  lemma FramePointerRuns(env: Env, m: Machine)
    requires Integers(m.c)
    ensures var w := [Push(FP, LR), MovFromSp(FP)];
      && ExecAll(env, w, m) == Going(m.(pc := m.pc + 2, c := m.c[29 := FramePointer(env, m)],
                                        frame := [Two(Saved(m.c, 29), Saved(m.c, 30))] + m.frame))
      && AllStraight(w)
  {
    assert [Push(FP, LR), MovFromSp(FP)] == [Push(FP, LR)] + [MovFromSp(FP)];
    PushRuns(env, FP, LR, [MovFromSp(FP)], m);
    hide ExecAll;
    ExecOne(env, MovFromSp(FP), m.(pc := m.pc + 1, frame := [Two(Saved(m.c, 29), Saved(m.c, 30))] + m.frame));
  }

  lemma SidecarRuns(env: Env, m: Machine)
    requires Shape(m)
    ensures var w := [Push(ZR, ZR), SubSp];
      && ExecAll(env, w, m) == Going(m.(pc := m.pc + 2, frame := [One(Data(env.junk)), Two(0, 0)] + m.frame))
      && AllStraight(w)
  {
    assert [Push(ZR, ZR), SubSp] == [Push(ZR, ZR)] + [SubSp];
    ExecCons(env, Push(ZR, ZR), [SubSp], m);
    ExecOne(env, SubSp, m.(pc := m.pc + 1, frame := [Two(0, 0)] + m.frame));
    hide ExecAll;
    assert [One(Data(env.junk))] + ([Two(0, 0)] + m.frame) == [One(Data(env.junk)), Two(0, 0)] + m.frame;
  }

  lemma SavesRun(env: Env, m: Machine)
    requires Integers(m.c)
    ensures ExecAll(env, SAVES, m)
      == Going(m.(pc := m.pc + 9, c := m.c[29 := FramePointer(env, m)],
                  frame := [One(Data(env.junk)), Two(0, 0)] + (Pairs(m.c) + m.frame)))
    ensures AllStraight(SAVES)
  {
    hide ExecAll, Exec;
    var a, d := [Push(FP, LR), MovFromSp(FP)], [Push(ZR, ZR), SubSp];
    FramePointerRuns(env, m);
    var f1 := [Two(Saved(m.c, 29), Saved(m.c, 30))] + m.frame;
    var m1 := m.(pc := m.pc + 2, c := m.c[29 := FramePointer(env, m)], frame := f1);
    PushesRun(env, m1);
    SamePairs(m.c, m1.c);
    assert Pairs(m1.c)[..5] + f1 == Pairs(m.c) + m.frame;
    var m2 := m1.(pc := m1.pc + 5, frame := Pairs(m.c) + m.frame);
    SidecarRuns(env, m2);
    hide Pairs;
    RunsThen(env, a, PUSHES, m, m1);
    RunsThen(env, a + PUSHES, d, m, m2);
  }

  lemma SamePairs(c: seq<Reg>, d: seq<Reg>)
    requires Integers(c) && Integers(d) && forall i :: 19 <= i <= 28 ==> d[i] == c[i]
    ensures Pairs(d)[..5] == Pairs(c)[..5] && Pairs(c)[5] == Two(Saved(c, 29), Saved(c, 30))
  {
  }

  // cbpf_enter's arguments in their registers.
  function ArgumentRegs(env: Env, build: Build, layout: Layout, depth: nat, c: seq<Reg>): (n: seq<Reg>)
    requires |c| == 31 && c[9].Data?
    ensures |n| == 31
  {
    StackRegs(env, layout, depth, c)
      [3 := Data(Scalar(layout.words * 4))][4 := Data(Scalar(c[9].c.address))]
      [5 := Data(Scalar(build.cookie))][10 := Data(Scalar(build.enter))]
  }

  function StackRegs(env: Env, layout: Layout, depth: nat, c: seq<Reg>): (n: seq<Reg>)
    requires |c| == 31
    ensures |n| == 31
  {
    c[0 := Data(Scalar(StackPointer(env, depth)))][1 := Data(Scalar(16))]
     [2 := Data(Scalar(env.base + 4 * layout.executive))]
  }

  lemma StackRuns(env: Env, layout: Layout, m: Machine)
    requires Shape(m) && Small(layout) && m.pc <= MAX_WORDS
    ensures ExecAll(env, StackWords(layout, m.pc), m)
      == Going(m.(pc := m.pc + 3, c := StackRegs(env, layout, |m.frame|, m.c)))
    ensures AllStraight(StackWords(layout, m.pc))
  {
    hide ExecAll;
    var x, y, z := MovFromSp(0), MovZ(1, 16, 0), Adr(2, (layout.executive - m.pc - 2) * 4);
    assert StackWords(layout, m.pc) == [x] + ([y] + [z]);
    var m1 := Set(m, 0, Data(Scalar(StackPointer(env, |m.frame|))));
    var m2 := Set(m1, 1, Data(Scalar(16)));
    assert Power16(0) == 1;
    ExecCons(env, x, [y] + [z], m);
    ExecCons(env, y, [z], m1);
    ExecOne(env, z, m2);
  }

  lemma ArgumentsRun(env: Env, build: Build, layout: Layout, m: Machine)
    requires Shape(m) && Small(layout) && m.pc <= MAX_WORDS && m.c[9].Data?
    requires build.cookie < U64 && build.enter < U64
    ensures ExecAll(env, ArgumentWords(build, layout, m.pc), m)
      == Going(m.(pc := m.pc + 13, c := ArgumentRegs(env, build, layout, |m.frame|, m.c)))
    ensures AllStraight(ArgumentWords(build, layout, m.pc))
  {
    hide StackWords, ImmediateWords, Small, ExecAll;
    var a, b := StackWords(layout, m.pc), [EncodeMovZ(3, layout.words * 4, 0), Mov(4, 9)];
    var e, f := ImmediateWords(5, build.cookie), ImmediateWords(10, build.enter);
    StackRuns(env, layout, m);
    var m1 := m.(pc := m.pc + 3, c := StackRegs(env, layout, |m.frame|, m.c));
    var c2 := m1.c[3 := Data(Scalar(layout.words * 4))][4 := Data(Scalar(m.c[9].c.address))];
    var m2 := m1.(pc := m1.pc + 2, c := c2);
    PairRuns(env, layout, m1);
    ImmediateLoads(env, 5, build.cookie, m2);
    var m3 := m2.(pc := m2.pc + 4, c := c2[5 := Data(Scalar(build.cookie))]);
    ImmediateLoads(env, 10, build.enter, m3);
    hide Exec, StackRegs, Straight;
    RunsThen(env, a, b, m, m1);
    RunsThen(env, a + b, e, m, m2);
    RunsThen(env, a + b + e, f, m, m3);
  }

  lemma PairRuns(env: Env, layout: Layout, m: Machine)
    requires Shape(m) && Small(layout) && m.c[9].Data?
    ensures var w := [EncodeMovZ(3, layout.words * 4, 0), Mov(4, 9)];
      && ExecAll(env, w, m)
         == Going(m.(pc := m.pc + 2,
                     c := m.c[3 := Data(Scalar(layout.words * 4))][4 := Data(Scalar(m.c[9].c.address))]))
      && AllStraight(w)
  {
    var x, y := MovZ(3, layout.words * 4, 0), Mov(4, 9);
    assert [EncodeMovZ(3, layout.words * 4, 0), Mov(4, 9)] == [x] + [y];
    assert Power16(0) == 1;
    var m1 := Set(m, 3, Data(Scalar(layout.words * 4)));
    ExecCons(env, x, [y], m);
    ExecOne(env, y, m1);
  }

  // ---- Entry ----

  // The machine at the call of cbpf_enter.
  function AtEntry(env: Env, build: Build, layout: Layout, m: Machine): (n: Machine)
    requires Integers(m.c)
    ensures Shape(n)
  {
    var c := m.c[9 := Data(Scalar(Saved(m.c, 30)))][29 := FramePointer(env, m)];
    m.(pc := m.pc + |FrameWords(build)| + 13,
       c := ArgumentRegs(env, build, layout, |m.frame| + 8, c),
       frame := [One(Data(env.junk)), Two(0, 0)] + (Pairs(m.c) + m.frame))
  }

  lemma FrameRuns(env: Env, build: Build, m: Machine)
    requires Integers(m.c)
    ensures ExecAll(env, FrameWords(build), m)
      == Going(m.(pc := m.pc + |FrameWords(build)|,
                  c := m.c[9 := Data(Scalar(Saved(m.c, 30)))][29 := FramePointer(env, m)],
                  frame := [One(Data(env.junk)), Two(0, 0)] + (Pairs(m.c) + m.frame)))
    ensures AllStraight(FrameWords(build))
  {
    hide ExecAll, Exec, EntryMarks;
    MarksRun(env, build, m);
    var m1 := m.(pc := m.pc + |EntryMarks(build)|, c := m.c[9 := Data(Scalar(Saved(m.c, 30)))]);
    SavesRun(env, m1);
    SamePairs(m.c, m1.c);
    assert Pairs(m1.c) == Pairs(m.c);
    hide Pairs;
    RunsThen(env, EntryMarks(build), SAVES, m, m1);
  }

  lemma EntryRuns(build: Build, p: B.Program, env: Env, m: Machine)
    requires Formed(p) && |p.insns| <= MAX_INSNS && Integers(m.c) && m.pc == 0
    requires build.cookie < U64 && build.enter < U64
    ensures var at := |FrameWords(build)| + 13;
      Steps(Image(build, p), env, m, at) == Going(AtEntry(env, build, Recorded(build, p), m))
  {
    hide ExecAll, Exec, FrameWords, ArgumentWords, EnterWords, Image, Recorded, Pairs, Formed, HoldsAt, Steps, Small,
      ArgumentRegs;
    var l, a := Recorded(build, p), FrameWords(build);
    var b := ArgumentWords(build, l, |a|);
    FrameRuns(env, build, m);
    LayoutsSmall(build, p);
    FrameLength(build);
    var m1 := ExecAll(env, a, m).m;
    ArgumentsRun(env, build, l, m1);
    RunsThen(env, a, b, m, m1);
    EntryHolds(build, p);
    BlockRuns(Image(build, p), env, a + b, m);
    ArgumentsLength(build, l, |a|);
  }

  lemma EntryHolds(build: Build, p: B.Program)
    requires Formed(p) && |p.insns| <= MAX_INSNS
    ensures var a := FrameWords(build);
      HoldsAt(Image(build, p), 0, a + ArgumentWords(build, Recorded(build, p), |a|))
  {
    hide FrameWords, ArgumentWords, EnterWords, Image, Recorded, Formed, HoldsAt;
    var l, a := Recorded(build, p), FrameWords(build);
    ImageHolds(build, p);
    HoldsPrefix(Image(build, p), 0, a + ArgumentWords(build, l, |a|), EnterWords(l, |a| + 13));
  }

  lemma FrameLength(build: Build)
    ensures |FrameWords(build)| <= 13
  {
  }

  lemma ArgumentsLength(build: Build, layout: Layout, at: nat)
    ensures |ArgumentWords(build, layout, at)| == 13
  {
    hide ImmediateWords;
  }

  // The words after the arguments, each in its place.
  lemma EnterTemplate(build: Build, p: B.Program)
    requires Formed(p) && |p.insns| <= MAX_INSNS
    ensures var (l, at) := (Recorded(build, p), |FrameWords(build)| + 13);
      && HoldsAt(Image(build, p), at, EnterWords(l, at)) && at + |EnterWords(l, at)| == PrologueLength(build)
      && l.executive > at + 3 && l.executive <= MAX_WORDS
  {
    hide Image, Recorded, Formed, HoldsAt, FrameWords, ArgumentWords, EnterWords;
    var code, l, a := Image(build, p), Recorded(build, p), FrameWords(build);
    var b, at := ArgumentWords(build, l, |a|), |a| + 13;
    ImageHolds(build, p);
    TemplateLengths(build, l);
    ArgumentsLength(build, l, |a|);
    FrameLength(build);
    ExecutiveBounds(build, p);
    HoldsPrefix(code, 0, a + b, EnterWords(l, at));
  }

  lemma EnterHolds(build: Build, p: B.Program)
    requires Formed(p) && |p.insns| <= MAX_INSNS
    ensures var (code, l, at) := (Image(build, p), Recorded(build, p), |FrameWords(build)| + 13);
      && at + 3 < |code| && code[at] == Blr(10) && code[at + 1] == Cbz(0, 3) && code[at + 2] == MovZ(7, 0, 0)
      && code[at + 3] == B(l.executive - at - 3) && l.executive > at + 3
      && HoldsAt(code, at + 4, ClearUpTo(true, 30)) && at + 4 + |ClearUpTo(true, 30)| == PrologueLength(build)
  {
    hide Image, Recorded, Formed, HoldsAt, FrameWords, ClearUpTo, BranchWords;
    var code, l, at := Image(build, p), Recorded(build, p), |FrameWords(build)| + 13;
    EnterTemplate(build, p);
    HoldsPrefix(code, at, BranchWords(l, at), ClearUpTo(true, 30));
    HoldsFour(code, at, BranchWords(l, at));
    BranchEncoded(l, at);
  }

  lemma BranchEncoded(layout: Layout, at: nat)
    requires layout.executive <= MAX_WORDS && at <= MAX_WORDS
    ensures var w := BranchWords(layout, at);
      && w[0] == Blr(10) && w[1] == Cbz(0, 3) && w[2] == MovZ(7, 0, 0) && w[3] == B(layout.executive - at - 3)
  {
  }

  lemma ExecutiveBounds(build: Build, p: B.Program)
    requires |p.insns| <= MAX_INSNS
    ensures PrologueLength(build) < Recorded(build, p).executive <= MAX_WORDS && Recorded(build, p).words > 0
  {
  }

  lemma HoldsFour(code: seq<Native>, at: nat, w: seq<Native>)
    requires HoldsAt(code, at, w) && |w| == 4
    ensures at + 3 < |code| && code[at] == w[0] && code[at + 1] == w[1] && code[at + 2] == w[2] && code[at + 3] == w[3]
  {
    assert code[at + 0] == w[0];
  }

  // Where the sidecar lies for a caller, eight slots below its stack pointer.
  function Sidecar(env: Env, m: Machine): nat
  {
    StackPointer(env, |m.frame| + 8)
  }

  // cbpf_enter starts the restricted code exactly when the invocation is fresh and the active
  // program's, the private stack and the caller's return address pass its checks, and its
  // capabilities can be built.
  predicate Enters(env: Env, build: Build, m: Machine)
    requires Integers(m.c)
  {
    Enterable(env, Sidecar(env, m), Saved(m.c, 30), build.cookie) && env.constructs
  }

  // The frame above the sidecar once cbpf_enter has returned.
  function Above(env: Env, build: Build, m: Machine): seq<Slot>
    requires Integers(m.c)
  {
    [if Enters(env, build, m) then One(Caller) else Two(0, 0)] + (Pairs(m.c) + m.frame)
  }

  lemma ArgumentFacts(env: Env, build: Build, layout: Layout, depth: nat, c: seq<Reg>)
    requires |c| == 31 && c[9].Data?
    ensures var n := ArgumentRegs(env, build, layout, depth, c);
      && n[0] == Data(Scalar(StackPointer(env, depth))) && n[1] == Data(Scalar(16))
      && n[2] == Data(Scalar(env.base + 4 * layout.executive)) && n[3] == Data(Scalar(layout.words * 4))
      && n[4] == Data(Scalar(c[9].c.address)) && n[5] == Data(Scalar(build.cookie))
      && n[10] == Data(Scalar(build.enter))
  {
  }

  // The registers at the call.
  lemma EntryFacts(build: Build, p: B.Program, env: Env, m: Machine)
    requires Integers(m.c) && m.pc == 0
    ensures var (e, l) := (AtEntry(env, build, Recorded(build, p), m), Recorded(build, p));
      && e.pc == |FrameWords(build)| + 13 && e.calls == m.calls && e.executive == m.executive
      && e.frame == [One(Data(env.junk)), Two(0, 0)] + (Pairs(m.c) + m.frame) && |e.frame| == |m.frame| + 8
      && e.c[0] == Data(Scalar(Sidecar(env, m))) && e.c[1] == Data(Scalar(16))
      && e.c[2] == Data(Scalar(env.base + 4 * l.executive)) && e.c[3] == Data(Scalar(l.words * 4))
      && e.c[4] == Data(Scalar(Saved(m.c, 30))) && e.c[5] == Data(Scalar(build.cookie))
      && e.c[10] == Data(Scalar(build.enter))
  {
    hide Recorded, FrameWords, Pairs, ArgumentRegs;
    var c := m.c[9 := Data(Scalar(Saved(m.c, 30)))][29 := FramePointer(env, m)];
    ArgumentFacts(env, build, Recorded(build, p), |m.frame| + 8, c);
  }

  // The two regions cbpf_enter is given: the restricted one, from the call's next word up to the
  // executive exit, and the executive one, which is the image's epilogue and nothing else.
  lemma EntryRegions(build: Build, p: B.Program, env: Env, m: Machine)
    requires Formed(p) && Integers(m.c) && m.pc == 0
    ensures var (e, code, epilogue) := (AtEntry(env, build, Recorded(build, p), m), Image(build, p), Epilogue(build));
      && e.c[2].Data? && e.c[3].Data? && e.c[2].c.address >= env.base
      && e.c[2].c.address - env.base + e.c[3].c.address == 4 * |code|
      && e.c[3].c.address == 4 * |epilogue| && code[|code| - |epilogue|..] == epilogue
      && code[|code| - |epilogue| - 1] == RetClr
  {
    EntryFacts(build, p, env, m);
    ImageTail(build, p);
    hide AtEntry, Recorded, Image, Epilogue, Formed, FrameWords, Pairs;
  }

  // The image's last words, and where the layout says they are.
  lemma ImageTail(build: Build, p: B.Program)
    requires Formed(p)
    ensures var (code, epilogue, l) := (Image(build, p), Epilogue(build), Recorded(build, p));
      && |epilogue| == l.words && |code| == l.executive + l.words && l.executive > 0
      && code[l.executive..] == epilogue && code[l.executive - 1] == RetClr
  {
    var l := Recorded(build, p);
    TemplateLengths(build, l);
    WordCount(build, p, l);
    hide Prologue, Epilogue, Body, Formed;
    var front := Prologue(build, l) + Body(p, l, |Prologue(build, l)|, |p.insns|);
    assert Image(build, p) == front + [RetClr] + Epilogue(build);
    assert |front| == l.executive - 1;
  }

  // The argument checks come down to those that the prologue does not decide.
  lemma EntryChecks(build: Build, p: B.Program, env: Env, m: Machine)
    requires Formed(p) && |p.insns| <= MAX_INSNS && Integers(m.c) && m.pc == 0
    ensures var e := AtEntry(env, build, Recorded(build, p), m);
      && Shape(e) && (forall i :: 0 <= i <= 5 ==> e.c[i].Data?)
      && (EntryArguments(env, e) <==> Enterable(env, Sidecar(env, m), Saved(m.c, 30), build.cookie))
      && (e.c[2].c.address - env.base) % 4 == 0
      && (e.c[2].c.address - env.base) / 4 == Recorded(build, p).executive && e.c[2].c.address >= env.base
  {
    ExecutiveBounds(build, p);
    EntryFacts(build, p, env, m);
    EnterBounds(build, p);
    hide Recorded, FrameWords, Enterable, AtEntry, Pairs, Formed;
    var e := AtEntry(env, build, Recorded(build, p), m);
    forall i | 0 <= i <= 5 ensures e.c[i].Data? {
      assert i == 0 || i == 1 || i == 2 || i == 3 || i == 4 || i == 5;
    }
    var executive := Recorded(build, p).executive;
    assert (4 * executive) % 4 == 0 && (4 * executive) / 4 == executive;
  }

  // What cbpf_enter does with the prologue's arguments.
  lemma EnterDecides(build: Build, p: B.Program, env: Env, m: Machine)
    requires Formed(p) && |p.insns| <= MAX_INSNS && Integers(m.c) && m.pc == 0 && m.executive
    requires env.enter == build.enter
    ensures var e := AtEntry(env, build, Recorded(build, p), m);
      && var o := Enter(env, e);
      && o.Going? && Shape(o.m) && o.m.pc == e.pc + 1 && o.m.calls == m.calls
      && o.m.frame == [One(Data(env.junk))] + Above(env, build, m)
      && o.m.c[0].Data?
      && (o.m.executive <==> !Enters(env, build, m)) && (o.m.c[0].c.address == 0 <==> Enters(env, build, m))
      && (Enters(env, build, m) ==>
            o.m.c[15].Data? && o.m.c[17] == GateEntry && o.m.c[30] == Code(Recorded(build, p).executive))
      && (!Enters(env, build, m) ==>
            o.m.c[0].c.address
              == if Enterable(env, Sidecar(env, m), Saved(m.c, 30), build.cookie) then U64 - 34 else U64 - 22)
  {
    hide Recorded, FrameWords, Pairs, Formed, AtEntry, EntryArguments, Enterable;
    var e := AtEntry(env, build, Recorded(build, p), m);
    EntryFacts(build, p, env, m);
    EntryChecks(build, p, env, m);
    FrameSplits(env, m);
    ErrorsAreNotZero();
    var o := Enter(env, e);
    assert Enters(env, build, m) ==> o.m.c[0] == Data(Scalar(0));
    var checked := Enterable(env, Sidecar(env, m), Saved(m.c, 30), build.cookie);
    assert EntryArguments(env, e) <==> checked;
    assert !Enters(env, build, m) ==> o.m.c[0] == Data(Scalar(Widen(if checked then -34 else -22)));
  }

  // The error codes cbpf_enter returns.
  lemma ErrorsAreNotZero()
    ensures Widen(-22) == U64 - 22 && Widen(-34) == U64 - 34
  {
    assert -22 + U64 == U64 - 22 && -34 + U64 == U64 - 34;
  }

  lemma EnterBounds(build: Build, p: B.Program)
    requires Formed(p) && |p.insns| <= MAX_INSNS
    ensures Recorded(build, p).executive > |FrameWords(build)| + 16
  {
    hide HoldsAt, Recorded, FrameWords, Image, ClearUpTo, Formed;
    EnterHolds(build, p);
  }

  lemma FrameSplits(env: Env, m: Machine)
    requires Integers(m.c)
    ensures var f := [One(Data(env.junk)), Two(0, 0)] + (Pairs(m.c) + m.frame);
      && |f| >= 2 && f[0] == One(Data(env.junk)) && f[2..] == Pairs(m.c) + m.frame
      && f == [One(Data(env.junk))] + ([Two(0, 0)] + (Pairs(m.c) + m.frame))
      && [f[0], One(Caller)] + f[2..] == [One(Data(env.junk))] + ([One(Caller)] + (Pairs(m.c) + m.frame))
  {
    hide Pairs;
  }

  // Up to the branch on cbpf_enter's result.
  lemma EnterRuns(build: Build, p: B.Program, env: Env, m: Machine) returns (n: nat, x: Machine)
    requires Formed(p) && |p.insns| <= MAX_INSNS && Integers(m.c) && m.pc == 0 && m.executive
    requires build.cookie < U64 && build.enter < U64 && env.enter == build.enter
    ensures Shape(x) && Steps(Image(build, p), env, m, n) == Going(x)
    ensures x.calls == m.calls && x.frame == [One(Data(env.junk))] + Above(env, build, m)
    ensures x.pc == |FrameWords(build)| + 13 + (if Enters(env, build, m) then 4 else 2)
    ensures x.executive <==> !Enters(env, build, m)
    ensures Enters(env, build, m) ==>
      x.c[15].Data? && x.c[17] == GateEntry && x.c[30] == Code(Recorded(build, p).executive)
  {
    hide Image, Recorded, Formed, Steps, HoldsAt, FrameWords, ClearUpTo, Enter, AtEntry, Above, Enters;
    var code, at := Image(build, p), |FrameWords(build)| + 13;
    var e := AtEntry(env, build, Recorded(build, p), m);
    EntryRuns(build, p, env, m);
    EnterHolds(build, p);
    EnterDecides(build, p, env, m);
    EntryPlace(env, build, Recorded(build, p), m);
    StepsThen(code, env, m, at);
    var m1 := Enter(env, e).m;
    StepsThen(code, env, m, at + 1);
    n := at + 2;
    x := Step(code, env, m1).m;
  }

  lemma EntryPlace(env: Env, build: Build, layout: Layout, m: Machine)
    requires Integers(m.c) && m.pc == 0
    ensures AtEntry(env, build, layout, m).pc == |FrameWords(build)| + 13
  {
  }

  // Accepted entry reaches the first body word with the source's initial configuration.
  lemma EntersBody(build: Build, p: B.Program, env: Env, m: Machine) returns (n: nat, x: Machine)
    requires Formed(p) && |p.insns| <= MAX_INSNS && Integers(m.c) && m.pc == 0 && m.executive && m.calls == []
    requires build.cookie < U64 && build.enter < U64 && env.enter == build.enter && Enters(env, build, m)
    ensures Shape(x) && Steps(Image(build, p), env, m, n) == Going(x)
    ensures Sim(p, build, B.Start(), x, Above(env, build, m))
  {
    hide Image, Recorded, Formed, Steps, HoldsAt, FrameWords, ClearUpTo, Above, Enters, ExecAll, Sim, Cleared, Straight,
      Step;
    var a, y := EnterRuns(build, p, env, m);
    var code, w := Image(build, p), ClearUpTo(true, 30);
    EnterHolds(build, p);
    ClearClears(env, true, 30, y);
    BlockRuns(code, env, w, y);
    StepsCompose(code, env, m, a, |w|);
    n, x := a + |w|, y.(pc := y.pc + |w|, c := Cleared(true, 30, y.c));
    StartsBody(build, p, env, y, Above(env, build, m));
  }

  lemma StartsBody(build: Build, p: B.Program, env: Env, y: Machine, saved: seq<Slot>)
    requires Shape(y) && y.calls == [] && y.frame == [One(Data(env.junk))] + saved && !y.executive
    requires y.c[15].Data? && y.c[17] == GateEntry && y.c[30] == Code(Recorded(build, p).executive)
    ensures Sim(p, build, B.Start(), y.(pc := PrologueLength(build), c := Cleared(true, 30, y.c)), saved)
  {
    hide Recorded;
    assert Offset(p, PrologueLength(build), 0) == PrologueLength(build);
    var c := Cleared(true, 30, y.c);
    assert c[15] == y.c[15] && c[17] == y.c[17] && c[30] == y.c[30];
    assert y.frame[1..] == saved && y.frame[0] == One(Data(env.junk));
    assert forall r :: 0 <= r < 10 ==> B.Start().regs[r].Undef?;
  }

  // Refused entry goes straight to the executive epilogue with a zero result.
  lemma EntryRefused(build: Build, p: B.Program, env: Env, m: Machine) returns (n: nat, x: Machine)
    requires Formed(p) && |p.insns| <= MAX_INSNS && Integers(m.c) && m.pc == 0 && m.executive && m.calls == []
    requires build.cookie < U64 && build.enter < U64 && env.enter == build.enter && !Enters(env, build, m)
    ensures Shape(x) && Steps(Image(build, p), env, m, n) == Going(x)
    ensures AtExit(p, build, x, 0, [], Above(env, build, m))
  {
    hide Image, Recorded, Formed, Steps, HoldsAt, FrameWords, ClearUpTo, Above, Enters, Step;
    var a, y := EnterRuns(build, p, env, m);
    var code := Image(build, p);
    EnterHolds(build, p);
    var z := y.(pc := y.pc + 1, c := y.c[7 := Data(Scalar(0))]);
    ZeroResult(code, env, y);
    JumpRuns(code, env, z, Recorded(build, p).executive);
    StepsThen(code, env, m, a);
    StepsThen(code, env, m, a + 1);
    n, x := a + 2, z.(pc := Recorded(build, p).executive);
    assert x.frame[1..] == Above(env, build, m);
  }

  lemma ZeroResult(code: seq<Native>, env: Env, m: Machine)
    requires Shape(m) && m.pc < |code| && code[m.pc] == MovZ(7, 0, 0)
    ensures Step(code, env, m) == Going(m.(pc := m.pc + 1, c := m.c[7 := Data(Scalar(0))]))
  {
  }

  lemma JumpRuns(code: seq<Native>, env: Env, m: Machine, to: nat)
    requires Shape(m) && m.pc < |code| && code[m.pc] == B(to - m.pc)
    ensures Step(code, env, m) == Going(m.(pc := to))
  {
  }

  // ---- Return ----

  // The sidecar and every register but the result are cleared.
  lemma ScrubRuns(env: Env, m: Machine, value: nat)
    requires Shape(m) && m.c[7].Data? && m.c[7].c.address == value && |m.frame| > 0 && m.frame[0].One?
    ensures ExecAll(env, ScrubWords(), m)
      == Going(m.(pc := m.pc + |ScrubWords()|, c := Cleared(false, 30, m.c[7 := Data(Scalar(value))]),
                  frame := m.frame[0 := One(Data(Scalar(0)))]))
    ensures AllStraight(ScrubWords())
  {
    var a, w := [StrZr(0), StrZr(8), Mov(7, 7)], ClearUpTo(false, 30);
    SidecarScrubs(env, m, value);
    var m1 := m.(pc := m.pc + 3, c := m.c[7 := Data(Scalar(value))], frame := m.frame[0 := One(Data(Scalar(0)))]);
    hide ExecAll, ClearUpTo;
    ClearClears(env, false, 30, m1);
    RunsThen(env, a, w, m, m1);
  }

  lemma SidecarScrubs(env: Env, m: Machine, value: nat)
    requires Shape(m) && m.c[7].Data? && m.c[7].c.address == value && |m.frame| > 0 && m.frame[0].One?
    ensures var w := [StrZr(0), StrZr(8), Mov(7, 7)];
      && ExecAll(env, w, m)
         == Going(m.(pc := m.pc + 3, c := m.c[7 := Data(Scalar(value))], frame := m.frame[0 := One(Data(Scalar(0)))]))
      && AllStraight(w)
  {
    hide ExecAll;
    var x, y, z := StrZr(0), StrZr(8), Mov(7, 7);
    assert [x, y, z] == [x] + ([y] + [z]);
    var m1 := m.(pc := m.pc + 1, frame := m.frame[0 := ZeroHalf(m.frame[0], 0)]);
    var m2 := m1.(pc := m1.pc + 1, frame := m1.frame[0 := ZeroHalf(m1.frame[0], 8)]);
    assert m2.frame == m.frame[0 := One(Data(Scalar(0)))];
    ExecCons(env, x, [y] + [z], m);
    ExecCons(env, y, [z], m1);
    ExecOne(env, z, m2);
  }

  lemma ReloadRuns(env: Env, m: Machine, top: Slot, slot: Slot, r: Reg, rest: seq<Slot>)
    requires Shape(m) && m.frame == [top] + ([slot] + rest) && LoadCap(slot) == Some(r)
    ensures ExecAll(env, RELOAD, m) == Going(m.(pc := m.pc + 3, c := m.c[16 := r], frame := rest))
    ensures AllStraight(RELOAD)
  {
    hide ExecAll;
    assert RELOAD == [AddSp] + ([LdrC16] + [AddSp]);
    var m1 := m.(pc := m.pc + 1, frame := [slot] + rest);
    assert m.frame[1..] == m1.frame && m1.frame[1..] == rest;
    var m2 := m1.(pc := m1.pc + 1, c := m1.c[16 := r]);
    ExecCons(env, AddSp, [LdrC16] + [AddSp], m);
    ExecCons(env, LdrC16, [AddSp], m1);
    ExecOne(env, AddSp, m2);
  }

  // A register pair restored from the frame.
  function PopPair(c: seq<Reg>, saved: seq<Reg>, i: nat): (n: seq<Reg>)
    requires |c| == 31 && Integers(saved) && 19 <= i <= 29
    ensures |n| == 31
  {
    c[i := Data(Scalar(Saved(saved, i)))][i + 1 := Data(Scalar(Saved(saved, i + 1)))]
  }

  lemma PopPops(env: Env, saved: seq<Reg>, i: nat, frame: seq<Slot>, m: Machine)
    requires Shape(m) && Integers(saved) && 19 <= i <= 29
    requires m.frame == [Two(Saved(saved, i), Saved(saved, i + 1))] + frame
    ensures Exec(env, Pop(i, i + 1), m) == Going(m.(pc := m.pc + 1, c := PopPair(m.c, saved, i), frame := frame))
  {
    assert m.frame[1..] == frame;
  }

  lemma PopRuns(env: Env, saved: seq<Reg>, i: nat, frame: seq<Slot>, rest: seq<Native>, m: Machine)
    requires Shape(m) && Integers(saved) && 19 <= i <= 29
    requires m.frame == [Two(Saved(saved, i), Saved(saved, i + 1))] + frame
    ensures ExecAll(env, [Pop(i, i + 1)] + rest, m)
      == ExecAll(env, rest, m.(pc := m.pc + 1, c := PopPair(m.c, saved, i), frame := frame))
  {
    hide ExecAll;
    ExecCons(env, Pop(i, i + 1), rest, m);
    PopPops(env, saved, i, frame, m);
  }

  function PopAll(c: seq<Reg>, saved: seq<Reg>): (n: seq<Reg>)
    requires |c| == 31 && Integers(saved)
    ensures |n| == 31
    ensures forall i :: 0 <= i < 31 ==> n[i] == if 19 <= i <= 28 then Data(Scalar(Saved(saved, i))) else c[i]
  {
    PopPair(PopPair(PopPair(PopPair(PopPair(c, saved, 27), saved, 25), saved, 23), saved, 21), saved, 19)
  }

  lemma PopsRun(env: Env, saved: seq<Reg>, frame: seq<Slot>, m: Machine)
    requires Shape(m) && Integers(saved) && m.frame == Pairs(saved) + frame
    ensures ExecAll(env, POPS, m)
      == Going(m.(pc := m.pc + 5, c := PopAll(m.c, saved),
                  frame := [Two(Saved(saved, 29), Saved(saved, 30))] + frame))
    ensures AllStraight(POPS)
  {
    hide ExecAll, Pairs, PopPair, Exec;
    var f5 := [Two(Saved(saved, 29), Saved(saved, 30))] + frame;
    var f4 := [Two(Saved(saved, 19), Saved(saved, 20))] + f5;
    var f3 := [Two(Saved(saved, 21), Saved(saved, 22))] + f4;
    var f2 := [Two(Saved(saved, 23), Saved(saved, 24))] + f3;
    var f1 := [Two(Saved(saved, 25), Saved(saved, 26))] + f2;
    PairsUnfold(saved, frame);
    var w5: seq<Native> := [];
    var w4 := [Pop(19, 20)] + w5;
    var w3 := [Pop(21, 22)] + w4;
    var w2 := [Pop(23, 24)] + w3;
    var w1 := [Pop(25, 26)] + w2;
    PopsUnfold();
    var c1 := PopPair(m.c, saved, 27);
    var c2 := PopPair(c1, saved, 25);
    var c3 := PopPair(c2, saved, 23);
    var c4 := PopPair(c3, saved, 21);
    var c5 := PopPair(c4, saved, 19);
    PopRuns(env, saved, 27, f1, w1, m);
    PopRuns(env, saved, 25, f2, w2, m.(pc := m.pc + 1, c := c1, frame := f1));
    PopRuns(env, saved, 23, f3, w3, m.(pc := m.pc + 2, c := c2, frame := f2));
    PopRuns(env, saved, 21, f4, w4, m.(pc := m.pc + 3, c := c3, frame := f3));
    PopRuns(env, saved, 19, f5, w5, m.(pc := m.pc + 4, c := c4, frame := f4));
    ExecNone(env, m.(pc := m.pc + 5, c := c5, frame := f5));
  }

  lemma PairsUnfold(saved: seq<Reg>, frame: seq<Slot>)
    requires Integers(saved)
    ensures Pairs(saved) + frame
      == [Two(Saved(saved, 27), Saved(saved, 28))] + ([Two(Saved(saved, 25), Saved(saved, 26))]
         + ([Two(Saved(saved, 23), Saved(saved, 24))] + ([Two(Saved(saved, 21), Saved(saved, 22))]
         + ([Two(Saved(saved, 19), Saved(saved, 20))] + ([Two(Saved(saved, 29), Saved(saved, 30))] + frame)))))
  {
  }

  lemma PopsUnfold()
    ensures POPS
      == [Pop(27, 28)] + ([Pop(25, 26)] + ([Pop(23, 24)] + ([Pop(21, 22)] + ([Pop(19, 20)] + []))))
    ensures AllStraight(POPS)
  {
  }

  lemma ResultRuns(env: Env, build: Build, saved: seq<Reg>, frame: seq<Slot>, m: Machine, value: nat)
    requires Shape(m) && Integers(saved) && m.c[7] == Data(Scalar(value))
    requires m.frame == [Two(Saved(saved, 29), Saved(saved, 30))] + frame
    ensures ExecAll(env, ResultWords(build), m)
      == Going(m.(pc := m.pc + |ResultWords(build)|,
                  c := PopPair(m.c, saved, 29)[0 := Data(Scalar(value))], frame := frame))
    ensures AllStraight(ResultWords(build))
  {
    var a, b := [Pop(FP, LR), Mov(0, 7)], Optional(build.pac, AutiAsp);
    assert a == [Pop(29, 30)] + [Mov(0, 7)];
    var m1 := m.(pc := m.pc + 1, c := PopPair(m.c, saved, 29), frame := frame);
    var m2 := m1.(pc := m1.pc + 1, c := m1.c[0 := Data(Scalar(value))]);
    PopRuns(env, saved, 29, frame, [Mov(0, 7)], m);
    ExecOne(env, Mov(0, 7), m1);
    hide ExecAll, Exec, PopPair, Optional;
    SkipRuns(env, build.pac, AutiAsp, m2);
    RunsThen(env, a, b, m, m2);
  }

  // The straight part of the epilogue.
  function Final(m: Machine, saved: seq<Reg>, r: Reg, value: nat): (c: seq<Reg>)
    requires Shape(m) && Integers(saved)
    ensures |c| == 31
    ensures c[0] == c[7] == Data(Scalar(value)) && c[16] == r
    ensures forall i :: 19 <= i <= 30 ==> c[i] == Data(Scalar(Saved(saved, i)))
    ensures forall i :: 0 < i < 19 && i != 7 && i != 16 ==> c[i] == Data(Scalar(0))
  {
    var cleared := Cleared(false, 30, m.c[7 := Data(Scalar(value))]);
    PopPair(PopAll(cleared[16 := r], saved), saved, 29)[0 := Data(Scalar(value))]
  }

  lemma EpilogueRuns(env: Env, build: Build, m: Machine, value: nat, slot: Slot, r: Reg, saved: seq<Reg>,
                     frame: seq<Slot>)
    requires Shape(m) && m.c[7].Data? && m.c[7].c.address == value && |m.frame| > 0 && m.frame[0].One?
    requires Integers(saved) && LoadCap(slot) == Some(r) && m.frame[1..] == [slot] + (Pairs(saved) + frame)
    ensures var w := ScrubWords() + (RELOAD + POPS + ResultWords(build));
      && ExecAll(env, w, m) == Going(m.(pc := m.pc + |w|, c := Final(m, saved, r, value), frame := frame))
      && AllStraight(w)
  {
    hide ExecAll, Pairs, ScrubWords, ResultWords, PopAll, PopPair, Cleared;
    var cleared := Cleared(false, 30, m.c[7 := Data(Scalar(value))]);
    var rest := Pairs(saved) + frame;
    ScrubRuns(env, m, value);
    var m1 := m.(pc := m.pc + |ScrubWords()|, c := cleared, frame := m.frame[0 := One(Data(Scalar(0)))]);
    assert m1.frame == [One(Data(Scalar(0)))] + ([slot] + rest);
    ReloadRuns(env, m1, One(Data(Scalar(0))), slot, r, rest);
    var m2 := m1.(pc := m1.pc + 3, c := cleared[16 := r], frame := rest);
    PopsRun(env, saved, frame, m2);
    var m3 := m2.(pc := m2.pc + 5, c := PopAll(m2.c, saved),
                  frame := [Two(Saved(saved, 29), Saved(saved, 30))] + frame);
    assert m3.c[7] == Data(Scalar(value));
    ResultRuns(env, build, saved, frame, m3, value);
    RunsThen(env, RELOAD, POPS, m1, m2);
    RunsThen(env, RELOAD + POPS, ResultWords(build), m1, m3);
    RunsThen(env, ScrubWords(), RELOAD + POPS + ResultWords(build), m, m1);
  }

  // What the compiled function leaves for its caller: the result, the caller's frame and
  // callee-saved registers, and no authority anywhere else but the sealed return in c16.
  ghost predicate Restored(m: Machine, x: Machine, value: nat)
    requires Integers(m.c)
  {
    && Shape(x) && x.frame == m.frame && x.c[0] == x.c[7] == Data(Scalar(value))
    && (forall i :: 19 <= i <= 30 ==> x.c[i] == Data(Scalar(Saved(m.c, i))))
    && (forall i :: 0 < i < 19 && i != 7 && i != 10 && i != 16 ==> x.c[i] == Data(Scalar(0)))
    && (x.c[10] == Data(Scalar(0)) || x.c[10] == Data(Scalar(1)))
    && (x.c[16] == Caller || x.c[16] == Data(Scalar(0)))
  }

  lemma EpilogueHolds(build: Build, p: B.Program)
    requires Formed(p)
    ensures var (code, at) := (Image(build, p), Recorded(build, p).executive);
      var w := ScrubWords() + (RELOAD + POPS + ResultWords(build));
      var q := at + |w|;
      && HoldsAt(code, at, w) && q + 3 < |code|
      && code[q] == GcTag(10, 16) && code[q + 1] == Cbz(10, 2) && code[q + 2] == RetrC16 && code[q + 3] == Ret(LR)
  {
    hide Image, Recorded, Formed, HoldsAt, ScrubWords, ResultWords, Prologue, Body, Epilogue;
    var code, at := Image(build, p), Recorded(build, p).executive;
    var w := ScrubWords() + (RELOAD + POPS + ResultWords(build));
    ImageHolds(build, p);
    EpilogueSplits(build);
    HoldsPrefix(code, at, w, LEAVE);
    HoldsFour(code, at + |w|, LEAVE);
  }

  lemma EpilogueSplits(build: Build)
    ensures Epilogue(build) == ScrubWords() + (RELOAD + POPS + ResultWords(build)) + LEAVE
    ensures LEAVE[0] == GcTag(10, 16) && LEAVE[1] == Cbz(10, 2) && LEAVE[2] == RetrC16 && LEAVE[3] == Ret(LR)
  {
    hide ScrubWords, ResultWords;
  }

  // From the executive epilogue to the return.
  lemma Returns(build: Build, p: B.Program, env: Env, x: Machine, value: nat, calls: seq<B.GateCall>, m: Machine)
    returns (n: nat, y: Machine)
    requires Formed(p) && Integers(m.c) && AtExit(p, build, x, value, calls, Above(env, build, m))
    ensures Shape(x) && Steps(Image(build, p), env, x, n) == Returned(value, y)
    ensures y.calls == calls && Restored(m, y, value)
  {
    hide Image, Recorded, Formed, HoldsAt, ScrubWords, ResultWords, Steps, ExecAll, Pairs, Straight, Final;
    var code := Image(build, p);
    var w := ScrubWords() + (RELOAD + POPS + ResultWords(build));
    var slot := if Enters(env, build, m) then One(Caller) else Two(0, 0);
    var r := if Enters(env, build, m) then Caller else Data(Scalar(0));
    EpilogueHolds(build, p);
    EpilogueRuns(env, build, x, value, slot, r, m.c, m.frame);
    BlockRuns(code, env, w, x);
    var z := x.(pc := x.pc + |w|, c := Final(x, m.c, r, value), frame := m.frame);
    Leaves(code, env, z, value);
    StepsCompose(code, env, x, |w|, 3);
    n := |w| + 3;
    y := z.(pc := z.pc + (if r.Caller? then 2 else 3),
            c := z.c[10 := Data(Scalar(if r.Caller? then 1 else 0))]);
  }

  // The last words: the sealed return when entry succeeded, the ordinary one otherwise.
  lemma Leaves(code: seq<Native>, env: Env, z: Machine, value: nat)
    requires Shape(z) && z.executive && z.pc + 3 < |code| && (z.c[16] == Caller || z.c[16] == Data(Scalar(0)))
    requires code[z.pc] == GcTag(10, 16) && code[z.pc + 1] == Cbz(10, 2)
    requires code[z.pc + 2] == RetrC16 && code[z.pc + 3] == Ret(LR)
    requires z.c[0] == Data(Scalar(value)) && z.c[30].Data?
    ensures var d := if z.c[16].Caller? then 1 else 0;
      Steps(code, env, z, 3) == Returned(value, z.(pc := z.pc + 3 - d, c := z.c[10 := Data(Scalar(d))]))
  {
    var d := if z.c[16].Caller? then 1 else 0;
    var z1 := z.(pc := z.pc + 1, c := z.c[10 := Data(Scalar(d))]);
    var z2 := z1.(pc := z.pc + 3 - d);
    assert Step(code, env, z) == Going(z1);
    assert Step(code, env, z1) == Going(z2);
    assert Step(code, env, z2) == Returned(value, z2);
    assert Steps(code, env, z2, 1) == Returned(value, z2);
    hide Step;
    assert Steps(code, env, z1, 2) == Steps(code, env, z2, 1);
  }

  // ---- The theorem ----

  // What the caller of the compiled function gets: nothing if entry is refused, otherwise the
  // program's scalar, or zero when the gate ends the run.
  function Result(p: B.Program, build: Build, env: Env, m: Machine): nat
    requires Integers(m.c)
  {
    var s := B.Run(p, env.gate, B.Start());
    if Enters(env, build, m) && s.Exited? then s.value else 0
  }

  function Trace(p: B.Program, build: Build, env: Env, m: Machine): seq<B.GateCall>
    requires Integers(m.c)
  {
    if Enters(env, build, m) then B.Run(p, env.gate, B.Start()).calls else []
  }

  // The theorem for gates whose values are never all ones.
  lemma SignalledIsCorrect(build: Build, p: B.Program, env: Env, m: Machine) returns (n: nat, y: Machine)
    requires A.Admit(p).Admitted? && |p.insns| <= MAX_INSNS && B.Obeys(env.gate) && Signals(env.gate)
    requires Integers(m.c) && m.pc == 0 && m.executive && m.calls == []
    requires build.cookie < U64 && build.enter < U64 && env.enter == build.enter
    ensures Formed(p) && Steps(Image(build, p), env, m, n) == Returned(Result(p, build, env, m), y)
    ensures y.calls == Trace(p, build, env, m) && Restored(m, y, Result(p, build, env, m))
  {
    hide A.Admit, Formed, Image, Steps, B.Obeys, Signals, AtExit, Sim, Above, B.Run, Enters, B.Start, Restored, Closed;
    AdmittedIsClosed(p);
    var code := Image(build, p);
    var a, x, s;
    if Enters(env, build, m) {
      var e, start := EntersBody(build, p, env, m);
      S.StartConsistent(p);
      var b := RunFollows(p, build, env, B.Start(), start, Above(env, build, m));
      StepsCompose(code, env, m, e, b);
      s := B.Run(p, env.gate, B.Start());
      a, x := e + b, Steps(code, env, start, b).m;
    } else {
      a, x := EntryRefused(build, p, env, m);
      s := B.Aborted([]);
    }
    var b;
    b, y := Returns(build, p, env, x, Result(p, build, env, m), Trace(p, build, env, m), m);
    StepsCompose(code, env, m, a, b);
    n := a + b;
  }

  // The gate as the gateway reads it: an all-ones value is a refusal.
  function Heard(gate: B.Gate): B.Gate
  {
    calls => HeardAnswer(gate(calls))
  }

  function HeardAnswer(a: B.Answer): B.Answer
  {
    if a.Value? && a.c.address == U64 - 1 then B.Refused else a
  }

  lemma HeardGate(gate: B.Gate)
    ensures Signals(Heard(gate)) && (B.Obeys(gate) ==> B.Obeys(Heard(gate)))
  {
    forall calls: seq<B.GateCall> | Heard(gate)(calls).Value? ensures Heard(gate)(calls).c.address != U64 - 1 {
      assert Heard(gate)(calls) == HeardAnswer(gate(calls));
    }
    if B.Obeys(gate) {
      forall calls: seq<B.GateCall> | |calls| > 0 ensures B.Lawful(calls[|calls| - 1], Heard(gate)(calls)) {
        assert B.Lawful(calls[|calls| - 1], gate(calls));
      }
    }
  }

  // The machine cannot tell the gate from the gate as heard.
  lemma StepHears(code: seq<Native>, env: Env, m: Machine)
    requires Shape(m)
    ensures Step(code, env, m) == Step(code, env.(gate := Heard(env.gate)), m)
  {
    hide HoldsAt, Gateway;
    var env' := env.(gate := Heard(env.gate));
    if m.pc < |code| {
      var w := code[m.pc];
      if w.Blrs? {
        GateHears(env, m);
      } else if w.Blr? {
        EnterHears(env, m);
      } else if Straight(w) {
        StraightSteps(code, env, m);
        StraightSteps(code, env', m);
        ExecHears(env, w, m);
      }
    }
  }

  lemma GateHears(env: Env, m: Machine)
    requires Shape(m)
    ensures CallGate(env, m) == CallGate(env.(gate := Heard(env.gate)), m)
  {
    hide Gateway;
  }

  lemma EnterHears(env: Env, m: Machine)
    requires Shape(m)
    ensures Enter(env, m) == Enter(env.(gate := Heard(env.gate)), m)
  {
    var a, b := Enter(env, m), Enter(env.(gate := Heard(env.gate)), m);
    if a.Going? { assert a.m.c == b.m.c; }
  }

  lemma ExecHears(env: Env, w: Native, m: Machine)
    requires Shape(m)
    ensures Exec(env, w, m) == Exec(env.(gate := Heard(env.gate)), w, m)
  {
    hide Insert, Power16;
  }

  lemma {:induction false} StepsHear(code: seq<Native>, env: Env, m: Machine, n: nat)
    requires Shape(m)
    ensures Steps(code, env, m, n) == Steps(code, env.(gate := Heard(env.gate)), m, n)
    decreases n
  {
    hide Step, Heard;
    if n > 0 {
      StepHears(code, env, m);
      var o := Step(code, env, m);
      if o.Going? { StepsHear(code, env, o.m, n - 1); }
    }
  }

  // For every admitted program, every gate within its contract, and any caller state, the image
  // runs without a fault to a return with the result and the gate calls of the source under the
  // gate as the gateway hears it.
  lemma CompilerIsCorrect(build: Build, p: B.Program, env: Env, m: Machine) returns (n: nat, y: Machine)
    requires A.Admit(p).Admitted? && |p.insns| <= MAX_INSNS && B.Obeys(env.gate)
    requires Integers(m.c) && m.pc == 0 && m.executive && m.calls == []
    requires build.cookie < U64 && build.enter < U64 && env.enter == build.enter
    ensures var heard := env.(gate := Heard(env.gate));
      && Formed(p) && Steps(Image(build, p), env, m, n) == Returned(Result(p, build, heard, m), y)
      && y.calls == Trace(p, build, heard, m) && Restored(m, y, Result(p, build, heard, m))
  {
    hide A.Admit, Formed, Image, Steps, B.Obeys, Signals, Heard, Restored, Result, Trace;
    var heard := env.(gate := Heard(env.gate));
    HeardGate(env.gate);
    n, y := SignalledIsCorrect(build, p, heard, m);
    StepsHear(Image(build, p), env, m, n);
  }

  // No value the run receives reads as a refusal.
  ghost predicate Quiet(p: B.Program, gate: B.Gate, k: B.Config)
    requires B.Shape(k)
    decreases |p.insns| - k.pc
  {
    var s := B.Step(p, gate, k);
    s.Running? ==>
      (s.k.calls != k.calls ==> HeardAnswer(gate(s.k.calls)) == gate(s.k.calls)) && Quiet(p, gate, s.k)
  }

  // What a step does with its gate: at most one more call, and the same step for the same answer.
  lemma StepAsks(p: B.Program, gate: B.Gate, k: B.Config)
    requires B.Shape(k)
    ensures var s, h := B.Step(p, gate, k), B.Step(p, Heard(gate), k);
      match s
      case Running(n) =>
        if n.calls == k.calls || HeardAnswer(gate(n.calls)) == gate(n.calls) then h == s
        else |n.calls| == |k.calls| + 1 && h == B.Aborted(n.calls)
      case Aborted(calls) => h == s && |calls| == |k.calls| + 1
      case _ => h == s
    ensures B.Step(p, gate, k).Running? ==> |k.calls| <= |B.Step(p, gate, k).k.calls|
  {
  }

  // A refusal comes with a call of its own.
  lemma {:induction false} AbortsLater(p: B.Program, gate: B.Gate, k: B.Config)
    requires B.Shape(k)
    ensures var s := B.Run(p, gate, k); s.Aborted? ==> |s.calls| > |k.calls|
    decreases |p.insns| - k.pc
  {
    hide B.Step, Heard;
    StepAsks(p, gate, k);
    var s := B.Step(p, gate, k);
    if s.Running? { AbortsLater(p, gate, s.k); }
  }

  // The gateway changes a run exactly if some value that the run receives is all ones.
  lemma {:induction false} HeardExactly(p: B.Program, gate: B.Gate, k: B.Config)
    requires B.Shape(k)
    ensures B.Run(p, Heard(gate), k) == B.Run(p, gate, k) <==> Quiet(p, gate, k)
    decreases |p.insns| - k.pc
  {
    hide B.Step, Heard, HeardAnswer;
    StepAsks(p, gate, k);
    var s := B.Step(p, gate, k);
    if s.Running? {
      HeardExactly(p, gate, s.k);
      AbortsLater(p, gate, s.k);
    }
  }

  // A compiled run that exits is the program's own run.
  lemma {:induction false} HeardExits(p: B.Program, gate: B.Gate, k: B.Config)
    requires B.Shape(k) && B.Run(p, Heard(gate), k).Exited?
    ensures B.Run(p, Heard(gate), k) == B.Run(p, gate, k)
    decreases |p.insns| - k.pc
  {
    hide B.Step, Heard, HeardAnswer;
    StepAsks(p, gate, k);
    var s := B.Step(p, gate, k);
    if s.Running? { HeardExits(p, gate, s.k); }
  }

  // A gate that never returns all ones is heard as it is, in every run.
  lemma {:induction false} SignalsQuiet(p: B.Program, gate: B.Gate, k: B.Config)
    requires B.Shape(k) && Signals(gate)
    ensures Quiet(p, gate, k)
    decreases |p.insns| - k.pc
  {
    hide B.Step;
    var s := B.Step(p, gate, k);
    if s.Running? { SignalsQuiet(p, gate, s.k); }
  }
}
