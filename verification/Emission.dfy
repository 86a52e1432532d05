/** The words linux/ownership/cbpf_jit.c emits for an admitted program, as functions of a layout:
    where each instruction starts and where the two exits are. */
module Emission {
  import opened Capabilities
  import opened Common
  import opened Bpf
  import opened Admission
  import opened AdmissionFixpoint

  // Abstract Morello instructions. BreakFault is what an encoder returns for operands it
  // cannot encode.
  datatype Native =
    | BreakFault
    | BtiJc
    | Nop
    | PaciAsp
    | AutiAsp
    | Mov(rd: nat, rn: nat)
    | MovFromSp(rd: nat)
    | Push(ra: nat, rb: nat)
    | Pop(ra: nat, rb: nat)
    | SubSp
    | AddSp
    | MovZ(rd: nat, imm: nat, shift: nat)
    | MovK(rd: nat, imm: nat, shift: nat)
    | Adr(rd: nat, bytes: int)
    | Blr(rn: nat)
    | Ret(rn: nat)
    | Cbz(rt: nat, words: int)
    | B(words: int)
    | CapMov(rd: nat, rn: nat)
    | CapStr(rt: nat)
    | CapLdr(rt: nat)
    | Blrs(rn: nat)
    | RetClr
    | StrZr(slot: nat)
    | LdrC16
    | GcTag(rd: nat, rn: nat)
    | RetrC16

  const LR := 30
  const FP := 29
  const ZR := 31

  const MAX_INSNS := 64
  const MAX_WORDS := 1024

  // ---- Range-checked encoders ----

  function EncodeMovZ(rd: nat, imm: nat, shift: nat): Native
  {
    if imm < 0x10000 then MovZ(rd, imm, shift) else BreakFault
  }

  function EncodeMovK(rd: nat, imm: nat, shift: nat): Native
  {
    if imm < 0x10000 then MovK(rd, imm, shift) else BreakFault
  }

  function EncodeAdr(rd: nat, bytes: int): Native
  {
    if -0x10_0000 <= bytes < 0x10_0000 then Adr(rd, bytes) else BreakFault
  }

  function EncodeCbz(rt: nat, words: int): Native
  {
    if -0x4_0000 <= words < 0x4_0000 then Cbz(rt, words) else BreakFault
  }

  function EncodeB(words: int): Native
  {
    if -0x200_0000 <= words < 0x200_0000 then B(words) else BreakFault
  }

  // ---- Templates ----

  // Build options, and the addresses the prologue materialises.
  datatype Build = Build(bti: bool, pac: bool, cookie: nat, enter: nat)

  // Recorded instruction starts and fixed exits.
  datatype Layout = Layout(offset: seq<nat>, restricted: nat, executive: nat, words: nat)

  // native_reg: BPF r0 to r9.
  function NativeReg(r: nat): (n: nat)
    requires r <= 9
    ensures n in {0, 1, 2, 3, 4, 7, 19, 20, 21, 22}
  {
    [7, 0, 1, 2, 3, 4, 19, 20, 21, 22][r]
  }

  lemma NativeRegInjective(a: nat, b: nat)
    requires a <= 9 && b <= 9
    ensures NativeReg(a) == NativeReg(b) <==> a == b
  {
  }

  function Power16(k: nat): (n: nat)
    ensures n > 0
  {
    if k == 0 then 1 else 0x10000 * Power16(k - 1)
  }

  // (value >> 16k) & 0xffff.
  function Chunk(value: nat, k: nat): (c: nat)
    ensures c < 0x10000
  {
    value / Power16(k) % 0x10000
  }

  // MOVZ and the first k MOVKs.
  function ImmediateUpTo(reg: nat, value: nat, k: nat): (w: seq<Native>)
    ensures |w| == k + 1
  {
    if k == 0 then [EncodeMovZ(reg, value % 0x10000, 0)]
    else ImmediateUpTo(reg, value, k - 1) + [EncodeMovK(reg, Chunk(value, k), 16 * k)]
  }

  function ImmediateWords(reg: nat, value: nat): (w: seq<Native>)
    ensures |w| == 4
  {
    ImmediateUpTo(reg, value, 3)
  }

  // Registers clear_registers leaves alone.
  predicate Kept(entering: bool, reg: nat)
  {
    if entering then reg == 15 || reg == 17 else reg == 7
  }

  function ClearUpTo(entering: bool, reg: nat): (w: seq<Native>)
    ensures |w| <= reg
  {
    if reg == 0 then []
    else ClearUpTo(entering, reg - 1) + if Kept(entering, reg - 1) then [] else [EncodeMovZ(reg - 1, 0, 0)]
  }

  function Optional(enabled: bool, w: Native): seq<Native>
  {
    if enabled then [w] else []
  }

  // The pairs of callee-saved registers, as the prologue pushes and the epilogue pops them.
  const PUSHES: seq<Native> := [Push(19, 20), Push(21, 22), Push(23, 24), Push(25, 26), Push(27, 28)]
  const POPS: seq<Native> := [Pop(27, 28), Pop(25, 26), Pop(23, 24), Pop(21, 22), Pop(19, 20)]

  const SAVES: seq<Native> := [Push(FP, LR), MovFromSp(FP)] + PUSHES + [Push(ZR, ZR), SubSp]

  function EntryMarks(build: Build): seq<Native>
  {
    Optional(build.bti, BtiJc) + [Mov(9, LR), Nop] + Optional(build.pac, PaciAsp)
  }

  // The executive entry up to the private sidecar.
  function FrameWords(build: Build): seq<Native>
  {
    EntryMarks(build) + SAVES
  }

  // cbpf_enter's arguments; at is the index of the first word.
  function StackWords(layout: Layout, at: nat): (w: seq<Native>)
    ensures |w| == 3
  {
    [MovFromSp(0), EncodeMovZ(1, 16, 0), EncodeAdr(2, (layout.executive - at - 2) * 4)]
  }

  function ArgumentWords(build: Build, layout: Layout, at: nat): seq<Native>
  {
    StackWords(layout, at) + [EncodeMovZ(3, layout.words * 4, 0), Mov(4, 9)]
    + ImmediateWords(5, build.cookie) + ImmediateWords(10, build.enter)
  }

  // The call and its error exit.
  function BranchWords(layout: Layout, at: nat): (w: seq<Native>)
    ensures |w| == 4
  {
    [Blr(10), EncodeCbz(0, 3), EncodeMovZ(7, 0, 0), EncodeB(layout.executive - at - 3)]
  }

  // The call, its error exit, and the scrub before the body.
  function EnterWords(layout: Layout, at: nat): seq<Native>
  {
    BranchWords(layout, at) + ClearUpTo(true, 30)
  }

  function Prologue(build: Build, layout: Layout): seq<Native>
  {
    var frame := FrameWords(build);
    frame + ArgumentWords(build, layout, |frame|) + EnterWords(layout, |frame| + 13)
  }

  const TRANSFER: seq<Native> := [CapMov(13, LR), Blrs(17), CapMov(7, 0)]

  function CallWords(operation: nat, pc: nat): seq<Native>
  {
    [EncodeMovZ(4, operation, 0), EncodeMovZ(5, pc, 0)] + TRANSFER
  }

  // The template of the instruction at pc, placed at the word index at.
  function Block(p: Program, layout: Layout, pc: nat, at: nat): seq<Native>
    requires pc < |p.insns| && Formed(p) && |layout.offset| == |p.insns| + 1
  {
    var x := p.insns[pc];
    match x.code
    case MovReg => [CapMov(NativeReg(x.dst), NativeReg(x.src))]
    case MovImm => ImmediateWords(NativeReg(x.dst), Widen(x.imm))
    case Stx => [CapStr(NativeReg(x.src))]
    case Ldx => [CapLdr(NativeReg(x.dst))]
    case Jeq => [EncodeCbz(NativeReg(x.dst), layout.offset[pc + 1 + x.off] - at)]
    case Call => CallWords(Operation(p, x), pc)
    case Exit => [EncodeB(layout.restricted - at)]
    case Other => []
  }

  function BlockLength(x: Insn): (n: nat)
    ensures n <= 5
  {
    match x.code
    case MovImm => 4
    case Call => 5
    case Other => 0
    case _ => 1
  }

  // Where the block of pc starts, the body starting at word start.
  function Offset(p: Program, start: nat, pc: nat): (n: nat)
    requires pc <= |p.insns|
    ensures start <= n <= start + 5 * pc
  {
    if pc == 0 then start else Offset(p, start, pc - 1) + BlockLength(p.insns[pc - 1])
  }

  // The blocks before pc.
  function Body(p: Program, layout: Layout, start: nat, pc: nat): (w: seq<Native>)
    requires pc <= |p.insns| && Formed(p) && |layout.offset| == |p.insns| + 1
    ensures |w| == Offset(p, start, pc) - start
  {
    if pc == 0 then []
    else Body(p, layout, start, pc - 1) + Block(p, layout, pc - 1, Offset(p, start, pc - 1))
  }

  // The executive epilogue, after the restricted exit.
  function ScrubWords(): seq<Native>
  {
    [StrZr(0), StrZr(8), Mov(7, 7)] + ClearUpTo(false, 30)
  }

  const RELOAD: seq<Native> := [AddSp, LdrC16, AddSp]
  const LEAVE: seq<Native> := [GcTag(10, 16), EncodeCbz(10, 2), RetrC16, Ret(LR)]

  function ResultWords(build: Build): seq<Native>
  {
    [Pop(FP, LR), Mov(0, 7)] + Optional(build.pac, AutiAsp)
  }

  function RestoreWords(build: Build): seq<Native>
  {
    RELOAD + POPS + ResultWords(build) + LEAVE
  }

  function Epilogue(build: Build): seq<Native>
  {
    ScrubWords() + RestoreWords(build)
  }

  // A whole pass, given the layout its branch operands are computed from.
  function Words(build: Build, p: Program, layout: Layout): seq<Native>
    requires Formed(p) && |layout.offset| == |p.insns| + 1
  {
    var prologue := Prologue(build, layout);
    prologue + Body(p, layout, |prologue|, |p.insns|) + [RetClr] + Epilogue(build)
  }

  // ---- The recorded layout ----

  lemma {:induction false} ClearLength(entering: bool, reg: nat)
    requires reg <= 30
    ensures |ClearUpTo(entering, reg)|
      == reg - (if entering then (if reg > 17 then 2 else if reg > 15 then 1 else 0) else if reg > 7 then 1 else 0)
  {
    if reg > 0 { ClearLength(entering, reg - 1); }
  }

  function PrologueLength(build: Build): nat
  {
    56 + (if build.bti then 1 else 0) + (if build.pac then 1 else 0)
  }

  function EpilogueLength(build: Build): nat
  {
    46 + (if build.pac then 1 else 0)
  }

  lemma TemplateLengths(build: Build, layout: Layout)
    ensures |Prologue(build, layout)| == PrologueLength(build) && |Epilogue(build)| == EpilogueLength(build)
  {
    hide ClearUpTo;
    ClearLength(true, 30);
    ClearLength(false, 30);
  }

  // The layout the first pass records.
  function Recorded(build: Build, p: Program): (l: Layout)
    ensures |l.offset| == |p.insns| + 1
  {
    var start := PrologueLength(build);
    var end := Offset(p, start, |p.insns|);
    Layout(seq(|p.insns| + 1, pc requires 0 <= pc <= |p.insns| => Offset(p, start, pc)), end, end + 1,
           EpilogueLength(build))
  }

  // The layout the first pass reads: nothing is recorded yet.
  function Blank(n: nat): (l: Layout)
    ensures |l.offset| == n + 1 && l.restricted == l.executive == l.words == 0
    ensures forall i :: 0 <= i <= n ==> l.offset[i] == 0
  {
    Layout(seq(n + 1, _ => 0), 0, 0, 0)
  }

  // The final image.
  function Image(build: Build, p: Program): seq<Native>
    requires Formed(p)
  {
    Words(build, p, Recorded(build, p))
  }

  // Every pass has the same length, whatever layout it reads: the sum of the template lengths.
  lemma WordCount(build: Build, p: Program, layout: Layout)
    requires Formed(p) && |layout.offset| == |p.insns| + 1
    ensures |Words(build, p, layout)|
      == Offset(p, PrologueLength(build), |p.insns|) + 1 + EpilogueLength(build)
    ensures |p.insns| <= MAX_INSNS ==> |Words(build, p, layout)| <= 426
  {
    TemplateLengths(build, layout);
  }

  // A layout whose entries are word indices of an image within the limit.
  ghost predicate Small(layout: Layout)
  {
    && (forall i :: 0 <= i < |layout.offset| ==> layout.offset[i] <= MAX_WORDS)
    && layout.restricted <= MAX_WORDS && layout.executive <= MAX_WORDS && layout.words <= MAX_WORDS
  }

  lemma LayoutsSmall(build: Build, p: Program)
    requires |p.insns| <= MAX_INSNS
    ensures Small(Recorded(build, p)) && Small(Blank(|p.insns|))
  {
  }

  // ---- Marks ----

  // None of the words that mark an entry or guard a return address.
  predicate Unmarked(w: seq<Native>)
  {
    BtiJc !in w && PaciAsp !in w && AutiAsp !in w
  }

  lemma UnmarkedConcat(a: seq<Native>, b: seq<Native>)
    ensures Unmarked(a + b) <==> Unmarked(a) && Unmarked(b)
  {
  }

  lemma {:induction false} ClearUnmarked(entering: bool, reg: nat)
    ensures Unmarked(ClearUpTo(entering, reg))
  {
    if reg > 0 { ClearUnmarked(entering, reg - 1); }
  }

  lemma {:induction false} ImmediateUnmarked(reg: nat, value: nat, k: nat)
    ensures Unmarked(ImmediateUpTo(reg, value, k))
  {
    hide Chunk;
    if k > 0 { ImmediateUnmarked(reg, value, k - 1); }
  }

  lemma {:induction false} BodyUnmarked(p: Program, layout: Layout, start: nat, pc: nat)
    requires pc <= |p.insns| && Formed(p) && |layout.offset| == |p.insns| + 1
    ensures Unmarked(Body(p, layout, start, pc))
  {
    hide Formed, Operation, Offset;
    if pc > 0 {
      BodyUnmarked(p, layout, start, pc - 1);
      BlockUnmarked(p, layout, pc - 1, Offset(p, start, pc - 1));
      hide Block;
      UnmarkedConcat(Body(p, layout, start, pc - 1), Block(p, layout, pc - 1, Offset(p, start, pc - 1)));
    }
  }

  lemma BlockUnmarked(p: Program, layout: Layout, pc: nat, at: nat)
    requires pc < |p.insns| && Formed(p) && |layout.offset| == |p.insns| + 1
    ensures Unmarked(Block(p, layout, pc, at))
  {
    var x := p.insns[pc];
    if x.code.MovImm? { ImmediateUnmarked(NativeReg(x.dst), Widen(x.imm), 3); }
    hide Operation, ImmediateUpTo, NativeReg;
  }

  lemma SavesUnmarked()
    ensures SAVES == [Push(FP, LR)] + SAVES[1..] && Unmarked(SAVES[1..])
    ensures Unmarked(RELOAD + POPS + [Pop(FP, LR)]) && Unmarked([StrZr(0), StrZr(8), Mov(7, 7)])
  {
  }

  lemma ArgumentsUnmarked(build: Build, layout: Layout, at: nat)
    ensures Unmarked(ArgumentWords(build, layout, at)) && Unmarked(EnterWords(layout, at))
  {
    ImmediateUnmarked(5, build.cookie, 3);
    ImmediateUnmarked(10, build.enter, 3);
    ClearUnmarked(true, 30);
    hide ImmediateUpTo, ClearUpTo;
    var stack, mid := StackWords(layout, at), [EncodeMovZ(3, layout.words * 4, 0), Mov(4, 9)];
    FewUnmarked(layout, at);
    hide Unmarked, StackWords, BranchWords;
    UnmarkedConcat(stack, mid);
    UnmarkedConcat(stack + mid, ImmediateWords(5, build.cookie));
    UnmarkedConcat(stack + mid + ImmediateWords(5, build.cookie), ImmediateWords(10, build.enter));
    UnmarkedConcat(BranchWords(layout, at), ClearUpTo(true, 30));
  }

  lemma FewUnmarked(layout: Layout, at: nat)
    ensures Unmarked(StackWords(layout, at)) && Unmarked(BranchWords(layout, at))
    ensures Unmarked([EncodeMovZ(3, layout.words * 4, 0), Mov(4, 9)])
    ensures Unmarked([Push(FP, LR)]) && Unmarked([RetClr]) && Unmarked([Mov(0, 7)])
  {
  }

  // The prologue after its marks and its first save, and the epilogue up to the result.
  function PrologueRest(build: Build, layout: Layout): seq<Native>
  {
    var frame := |FrameWords(build)|;
    SAVES[1..] + ArgumentWords(build, layout, frame) + EnterWords(layout, frame + 13)
  }

  function EpilogueRest(): seq<Native>
  {
    ScrubWords() + (RELOAD + POPS + [Pop(FP, LR)])
  }

  lemma PrologueMarks(build: Build, layout: Layout)
    ensures Unmarked(PrologueRest(build, layout))
    ensures Prologue(build, layout) == EntryMarks(build) + ([Push(FP, LR)] + PrologueRest(build, layout))
  {
    var frame := |FrameWords(build)|;
    var a, b, saves := ArgumentWords(build, layout, frame), EnterWords(layout, frame + 13), SAVES[1..];
    SavesUnmarked();
    ArgumentsUnmarked(build, layout, frame);
    ArgumentsUnmarked(build, layout, frame + 13);
    PrologueIs(build, layout);
    hide *;
    UnmarkedConcat(saves, a);
    UnmarkedConcat(saves + a, b);
    Regroup(EntryMarks(build), [Push(FP, LR)], saves, a, b);
  }

  lemma PrologueIs(build: Build, layout: Layout)
    ensures var frame := |FrameWords(build)|;
      var (a, b) := (ArgumentWords(build, layout, frame), EnterWords(layout, frame + 13));
      && Prologue(build, layout) == EntryMarks(build) + SAVES + a + b
      && PrologueRest(build, layout) == SAVES[1..] + a + b
  {
    hide EntryMarks, ArgumentWords, EnterWords;
  }

  lemma Regroup(m: seq<Native>, f: seq<Native>, r: seq<Native>, a: seq<Native>, b: seq<Native>)
    ensures m + (f + r) + a + b == m + (f + (r + a + b))
  {
  }

  lemma EpilogueMarks(build: Build)
    ensures Unmarked(EpilogueRest())
    ensures Epilogue(build) == EpilogueRest() + [Mov(0, 7)] + Optional(build.pac, AutiAsp) + LEAVE
  {
    ClearUnmarked(false, 30);
    SavesUnmarked();
    hide Unmarked, ClearUpTo;
    UnmarkedConcat([StrZr(0), StrZr(8), Mov(7, 7)], ClearUpTo(false, 30));
    UnmarkedConcat(ScrubWords(), RELOAD + POPS + [Pop(FP, LR)]);
    ResultRegroups(build);
    hide *;
    RegroupEnd(ScrubWords(), RELOAD + POPS, [Pop(FP, LR)], [Mov(0, 7)], Optional(build.pac, AutiAsp), LEAVE);
    EpilogueIs(build);
  }

  lemma EpilogueIs(build: Build)
    ensures Epilogue(build) == ScrubWords() + (RELOAD + POPS + ResultWords(build) + LEAVE)
    ensures EpilogueRest() == ScrubWords() + (RELOAD + POPS + [Pop(FP, LR)])
  {
    hide ScrubWords, ResultWords;
  }

  lemma ResultRegroups(build: Build)
    ensures ResultWords(build) == [Pop(FP, LR)] + [Mov(0, 7)] + Optional(build.pac, AutiAsp)
  {
  }

  lemma RegroupEnd(s: seq<Native>, r: seq<Native>, p: seq<Native>, m: seq<Native>, o: seq<Native>, l: seq<Native>)
    ensures s + (r + (p + m + o) + l) == s + (r + p) + m + o + l
  {
  }

  // The image opens with its branch-target mark, signs the return address before it saves it and
  // authenticates it after it has restored it, each exactly if the build asks for it; no other
  // word is a mark.
  lemma MarksPlaced(build: Build, p: Program) returns (rest: seq<Native>)
    requires Formed(p)
    ensures Unmarked(rest) && Image(build, p)
      == (if build.bti then [BtiJc] else []) + [Mov(9, LR), Nop] + (if build.pac then [PaciAsp] else [])
         + rest + (if build.pac then [AutiAsp] else []) + [GcTag(10, 16), Cbz(10, 2), RetrC16, Ret(LR)]
    ensures |rest| > 0 && rest[0] == Push(FP, LR) && rest[|rest| - 1] == Mov(0, 7)
  {
    var layout := Recorded(build, p);
    var start := |Prologue(build, layout)|;
    var body := Body(p, layout, start, |p.insns|);
    PrologueMarks(build, layout);
    EpilogueMarks(build);
    BodyUnmarked(p, layout, start, |p.insns|);
    FewUnmarked(layout, 0);
    hide Unmarked, Body, Recorded, Image, Prologue, Epilogue, Formed, PrologueRest, EpilogueRest;
    var front, back := [Push(FP, LR)] + PrologueRest(build, layout), EpilogueRest() + [Mov(0, 7)];
    UnmarkedConcat([Push(FP, LR)], PrologueRest(build, layout));
    UnmarkedConcat(EpilogueRest(), [Mov(0, 7)]);
    UnmarkedConcat(front, body);
    UnmarkedConcat(front + body, [RetClr]);
    UnmarkedConcat(front + body + [RetClr], back);
    rest := front + body + [RetClr] + back;
    ImageMarks(build, p, front, body, back, rest);
    assert EntryMarks(build)
      == (if build.bti then [BtiJc] else []) + [Mov(9, LR), Nop] + (if build.pac then [PaciAsp] else []);
    hide EntryMarks;
  }

  lemma ImageMarks(build: Build, p: Program, front: seq<Native>, body: seq<Native>, back: seq<Native>,
                   rest: seq<Native>)
    requires Formed(p) && var layout := Recorded(build, p);
      && Prologue(build, layout) == EntryMarks(build) + front
      && body == Body(p, layout, |Prologue(build, layout)|, |p.insns|)
      && Epilogue(build) == back + Optional(build.pac, AutiAsp) + LEAVE && rest == front + body + [RetClr] + back
    ensures Image(build, p) == EntryMarks(build) + rest + Optional(build.pac, AutiAsp) + LEAVE
  {
    hide Prologue, Epilogue, Body, EntryMarks, Recorded, Formed;
  }
}
