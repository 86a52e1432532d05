/** linux/ownership/cbpf_jit.c as it runs: the compiler context whose tables, image, index and
    failure flag are updated in place by admission and by the three generation passes. */
module JitRun {
  import opened Capabilities
  import opened Common
  import opened Bpf
  import opened Admission
  import opened AdmissionFixpoint
  import opened Emission

  // struct cbpf_compiler, zeroed.
  class Compiler {
    const p: Program
    const build: Build
    const flow: array<Point>
    const offset: array<nat>
    const operation: array<nat>
    var image: array?<Native>
    var index: nat
    var words: nat
    var restrictedExit: nat
    var executiveExit: nat
    var executiveWords: nat
    var check: bool
    var failed: bool
    // The words this pass has emitted, and the image a check pass was given.
    ghost var out: seq<Native>
    ghost var given: seq<Native>

    constructor (p: Program, build: Build)
      ensures this.p == p && this.build == build && Tables()
      ensures fresh(flow) && fresh(offset) && fresh(operation) && image == null
      ensures forall i :: 0 <= i < offset.Length ==> offset[i] == 0
      ensures forall i :: 0 <= i < flow.Length ==> flow[i] == Unreached()
      ensures restrictedExit == executiveExit == executiveWords == 0 && !check && !failed && out == []
    {
      this.p, this.build := p, build;
      flow := new Point[MAX_INSNS + 1](_ => Unreached());
      offset := new nat[MAX_INSNS + 1](_ => 0);
      operation := new nat[MAX_INSNS](_ => 0);
      image, index, words, restrictedExit, executiveExit, executiveWords := null, 0, 0, 0, 0, 0;
      check, failed, out, given := false, false, [], [];
    }

    ghost predicate Tables()
    {
      flow.Length == offset.Length == MAX_INSNS + 1 && operation.Length == MAX_INSNS && offset != operation
    }

    // ---- Admission ----

    // join into a flow entry, register by register.
    method JoinInto(target: nat, source: Point)
      requires target < flow.Length
      modifies flow
      ensures flow[..] == old(flow[..])[target := Join(old(flow[target]), source)]
    {
      if !flow[target].reached {
        flow[target] := source;
        return;
      }
      ghost var before := flow[..];
      for reg := 0 to 10
        invariant flow[target].reached && flow[target].spill == before[target].spill
        invariant forall i :: 0 <= i < flow.Length && i != target ==> flow[i] == before[i]
        invariant forall r :: 0 <= r < reg ==> flow[target].reg[r] == JoinKind(before[target].reg[r], source.reg[r])
        invariant forall r :: reg <= r < 10 ==> flow[target].reg[r] == before[target].reg[r]
      {
        var d := flow[target];
        flow[target] := d.(reg := d.reg[reg := JoinKind(d.reg[reg], source.reg[reg])]);
      }
      flow[target] := flow[target].(spill := JoinKind(flow[target].spill, source.spill));
      assert flow[target] == Join(before[target], source);
    }

    ghost function Entries(): (f: seq<Point>)
      requires Tables() && |p.insns| <= MAX_INSNS
      reads flow
      ensures |f| == |p.insns| + 1 && forall i :: 0 <= i <= |p.insns| ==> f[i] == flow[i]
    {
      flow[..|p.insns| + 1]
    }

    // The switch on one instruction: its checks, its branch edge, and the state that falls through.
    method AdmitOne(pc: nat, acquisitions: nat) returns (error: Option<Error>, count: nat, exits: bool)
      requires Tables() && pc < |p.insns| <= MAX_INSNS
      modifies flow, operation
      ensures error == Check(p, pc, old(flow[pc]), acquisitions)
      ensures exits == p.insns[pc].code.Exit?
      ensures error.None? ==> count == acquisitions + IsAcquire(p, p.insns[pc])
      ensures error.None? ==> Check(p, pc, old(flow[pc]), 0).None?
      ensures error.None? ==> Entries() == Propagate(p, old(Entries()), pc)
      ensures forall i :: 0 <= i < MAX_INSNS && i != pc ==> operation[i] == old(operation[i])
      ensures error.None? && p.insns[pc].code.Call? ==> operation[pc] == Operation(p, p.insns[pc])
    {
      hide Join;
      CheckCount(p, pc, flow[pc], acquisitions);
      ghost var entries := Entries();
      var x := p.insns[pc];
      var fallsThrough := true;
      count, exits := acquisitions, false;
      if !flow[pc].reached { return Some(Invalid), count, x.code.Exit?; }
      var state := flow[pc];
      match x.code {
        case MovReg =>
          if x.dst > 9 || x.src > 9 || x.off != 0 || x.imm != 0 || !IsDefined(state.reg[x.src]) {
            return Some(Invalid), count, false;
          }
          state := state.(reg := state.reg[x.dst := state.reg[x.src]]);
        case MovImm =>
          if x.dst > 9 || x.src != 0 || x.off != 0 { return Some(Invalid), count, false; }
          state := state.(reg := state.reg[x.dst := if x.imm != 0 then SCALAR else ZERO]);
        case Stx =>
          if x.dst != 10 || x.src > 9 || x.off != -8 || x.imm != 0 || !IsDefined(state.reg[x.src]) {
            return Some(Invalid), count, false;
          }
          state := state.(spill := state.reg[x.src]);
        case Ldx =>
          if x.dst > 9 || x.src != 10 || x.off != -8 || x.imm != 0 || !IsDefined(state.spill) {
            return Some(Invalid), count, false;
          }
          state := state.(reg := state.reg[x.dst := state.spill]);
        case Jeq =>
          if x.dst > 9 || x.src != 0 || x.imm != 0 || x.off <= 0 || pc + 1 + x.off >= |p.insns|
             || !IsDefined(state.reg[x.dst]) || state.reg[x.dst].scalar
          {
            return Some(Invalid), count, false;
          }
          if state.reg[x.dst].zero {
            JoinInto(pc + 1 + x.off, state.(reg := state.reg[x.dst := ZERO]));
          }
          state := state.(reg := state.reg[x.dst := state.reg[x.dst].(zero := false)]);
          fallsThrough := state.reg[x.dst] != EMPTY;
        case Call =>
          operation[pc] := Operation(p, x);
          var result;
          if operation[pc] == ACQUIRE {
            if !IsScalarKind(state.reg[1]) { return Some(Invalid), count, false; }
            count := count + 1;
            if count > 2 { return Some(Invalid), count, false; }
            result := NULLABLE;
          } else if operation[pc] == READ || operation[pc] == RELEASE {
            if state.reg[1] != HANDLE { return Some(Invalid), count, false; }
            result := if operation[pc] == READ then SCALAR else ZERO;
          } else {
            return Some(Invalid), count, false;
          }
          state := state.(reg := Clobber(state.reg, result));
        case Exit =>
          exits := true;
          if x.dst != 0 || x.src != 0 || x.off != 0 || x.imm != 0 || !IsScalarKind(state.reg[0]) {
            return Some(Invalid), count, true;
          }
          fallsThrough := false;
        case Other =>
          return Some(Unsupported), count, false;
      }
      if fallsThrough { JoinInto(pc + 1, state); }
      error := None;
    }

    // admit: the pass over the program and its verdict.
    method Admit() returns (error: Option<Error>)
      requires Tables() && |p.insns| <= MAX_INSNS
      requires forall i :: 0 <= i < flow.Length ==> flow[i] == Unreached()
      modifies flow, operation
      ensures match Admission.Admit(p)
        case Rejected(e) => error == Some(e)
        case Admitted(f) => error == None && Entries() == f
      ensures error.None? ==> forall i :: 0 <= i < |p.insns| && p.insns[i].code.Call? ==>
        operation[i] == Operation(p, p.insns[i])
    {
      hide Check, Propagate, Operation, IsAcquire;
      var n := |p.insns|;
      flow[0] := Flow(seq(10, _ => UNINIT), UNINIT, true);
      assert Entries() == EntryFlow(n);
      var pc, acquisitions: nat, hasExit := 0, 0, false;
      while pc < n
        invariant pc <= n && Tables()
        invariant AdmitFrom(p, Entries(), pc, acquisitions, hasExit) == Admission.Admit(p)
        invariant forall i :: 0 <= i < pc && p.insns[i].code.Call? ==> operation[i] == Operation(p, p.insns[i])
      {
        var rejected, count, exits := AdmitOne(pc, acquisitions);
        if rejected.Some? { return rejected; }
        acquisitions, hasExit, pc := count, hasExit || exits, pc + 1;
      }
      error := if hasExit && acquisitions > 0 && !flow[n].reached then None else Some(Invalid);
    }

    // ---- Emission ----

    // The image, when there is one, holds exactly the counted words.
    ghost predicate Sized()
      reads `image, `words
    {
      image != null ==> image.Length == words
    }

    // This pass so far: nothing failed, except that a check pass has failed exactly if the
    // image differs from the words emitted.
    ghost predicate Consistent()
      reads `image, `words, `index, `out, `given, `check, `failed, image
    {
      && Sized() && index == |out| <= MAX_WORDS && (image != null ==> index <= words)
      && if image == null then !failed
         else if check then image[..] == given && failed == (given[..index] != out)
         else !failed && image[..index] == out
    }

    // How many more words fit.
    ghost function Left(): int
      reads `image, `words, `index
    {
      if image != null && words < MAX_WORDS then words - index else MAX_WORDS - index
    }

    // What a sequence of calls to Word adds.
    twostate predicate Emitted(w: seq<Native>)
      reads `image, `words, `index, `out
    {
      out == old(out) + w && index == old(index) + |w| && Left() == old(Left()) - |w|
    }

    method Word(w: Native)
      requires Sized()
      modifies `index, `failed, `out, image
      ensures if w != BreakFault && 0 < old(Left())
        then Emitted([w])
        else failed && index == old(index) && out == old(out)
      ensures w != BreakFault && old(Consistent()) && 0 < old(Left()) ==> Consistent()
    {
      if index >= MAX_WORDS || (image != null && index >= words) || w == BreakFault {
        failed := true;
        return;
      }
      ghost var before := if image != null then image[..index] else [];
      if image != null {
        if check {
          if image[index] != w { failed := true; }
          assert image[..index + 1] == before + [image[index]];
        } else {
          image[index] := w;
          assert image[..index + 1] == before + [w];
        }
      }
      index := index + 1;
      out := out + [w];
    }

    method Immediate(reg: nat, value: nat)
      requires Sized() && Consistent() && 4 <= Left()
      modifies `index, `failed, `out, image
      ensures Consistent() && Emitted(ImmediateWords(reg, value))
    {
      Word(EncodeMovZ(reg, value % 0x10000, 0));
      var k := 1;
      while k < 4
        invariant 1 <= k <= 4 && Consistent() && 4 - k <= Left()
        invariant Emitted(ImmediateUpTo(reg, value, k - 1))
      {
        Word(EncodeMovK(reg, Chunk(value, k), 16 * k));
        k := k + 1;
      }
    }

    method ClearRegisters(entering: bool)
      requires Sized() && Consistent() && (if entering then 28 else 29) <= Left()
      modifies `index, `failed, `out, image
      ensures Consistent() && Emitted(ClearUpTo(entering, 30))
    {
      hide Consistent, Left;
      for reg := 0 to 30
        invariant Consistent() && Emitted(ClearUpTo(entering, reg))
      {
        ClearLength(entering, reg + 1);
        if entering {
          if reg == 15 || reg == 17 { continue; }
        } else {
          if reg == 7 { continue; }
        }
        Word(EncodeMovZ(reg, 0, 0));
      }
    }

    // The loop that pushes the callee-saved pairs.
    method PushPairs()
      requires Sized() && Consistent() && 5 <= Left()
      modifies `index, `failed, `out, image
      ensures Consistent() && Emitted(PUSHES)
    {
      hide Consistent, Left;
      var reg := 19;
      while reg < 29
        invariant reg % 2 == 1 && 19 <= reg <= 29 && Consistent() && (29 - reg) / 2 <= Left()
        invariant Emitted(PUSHES[..(reg - 19) / 2])
      {
        Word(Push(reg, reg + 1));
        reg := reg + 2;
      }
    }

    // The entry marks, up to the frame pointer.
    method EmitMarks()
      requires Sized() && Consistent() && 4 <= Left()
      modifies `index, `failed, `out, image
      ensures Consistent() && Emitted(EntryMarks(build))
    {
      hide Consistent, Left;
      if build.bti { Word(BtiJc); }
      Word(Mov(9, LR));
      Word(Nop);
      assert Emitted(Optional(build.bti, BtiJc) + [Mov(9, LR), Nop]);
      if build.pac { Word(PaciAsp); }
    }

    method EmitSaves()
      requires Sized() && Consistent() && 9 <= Left()
      modifies `index, `failed, `out, image
      ensures Consistent() && Emitted(SAVES)
    {
      hide Consistent, Left;
      Word(Push(FP, LR));
      Word(MovFromSp(FP));
      assert Emitted([Push(FP, LR), MovFromSp(FP)]);
      PushPairs();
      assert Emitted([Push(FP, LR), MovFromSp(FP)] + PUSHES);
      EmitSidecar();
    }

    method EmitSidecar()
      requires Sized() && Consistent() && 2 <= Left()
      modifies `index, `failed, `out, image
      ensures Consistent() && Emitted([Push(ZR, ZR), SubSp])
    {
      hide Consistent, Left;
      Word(Push(ZR, ZR));
      Word(SubSp);
    }

    // The executive frame.
    method Frame()
      requires Sized() && Consistent() && 13 <= Left()
      modifies `index, `failed, `out, image
      ensures Consistent() && Emitted(FrameWords(build))
    {
      hide Consistent, Left, EntryMarks;
      MarksLength(build);
      EmitMarks();
      EmitSaves();
    }

    // The private stack's range, and the executive exit's address.
    method StackArguments(ghost layout: Layout, ghost at: nat)
      requires Sized() && Consistent() && 3 <= Left() && index == at <= MAX_WORDS && Small(layout)
      requires executiveExit == layout.executive
      modifies `index, `failed, `out, image
      ensures Consistent() && Emitted(StackWords(layout, at))
    {
      hide Consistent, Left;
      Word(MovFromSp(0));
      Word(EncodeMovZ(1, 16, 0));
      Word(EncodeAdr(2, (executiveExit - index) * 4));
    }

    // cbpf_enter's arguments.
    method Arguments(ghost layout: Layout, ghost at: nat)
      requires Sized() && Consistent() && 13 <= Left() && index == at <= MAX_WORDS && Small(layout)
      requires executiveExit == layout.executive && executiveWords == layout.words
      modifies `index, `failed, `out, image
      ensures Consistent() && Emitted(ArgumentWords(build, layout, at))
    {
      hide Consistent, Left, StackWords, ImmediateWords;
      StackArguments(layout, at);
      Word(EncodeMovZ(3, executiveWords * 4, 0));
      Word(Mov(4, 9));
      ghost var five := StackWords(layout, at) + [EncodeMovZ(3, layout.words * 4, 0), Mov(4, 9)];
      assert Emitted(five);
      Immediate(5, build.cookie);
      assert Emitted(five + ImmediateWords(5, build.cookie));
      Immediate(10, build.enter);
    }

    method EnterCall()
      requires Sized() && Consistent() && 3 <= Left()
      modifies `index, `failed, `out, image
      ensures Consistent() && Emitted([Blr(10), EncodeCbz(0, 3), EncodeMovZ(7, 0, 0)])
    {
      hide Consistent, Left;
      Word(Blr(10));
      Word(EncodeCbz(0, 3));
      Word(EncodeMovZ(7, 0, 0));
    }

    method EnterOrLeave(ghost layout: Layout, ghost at: nat)
      requires Sized() && Consistent() && 4 <= Left() && index == at <= MAX_WORDS && Small(layout)
      requires executiveExit == layout.executive
      modifies `index, `failed, `out, image
      ensures Consistent() && Emitted(BranchWords(layout, at))
    {
      hide Consistent, Left;
      EnterCall();
      Word(EncodeB(executiveExit - index));
    }

    method EnterRestricted(ghost layout: Layout, ghost at: nat)
      requires Sized() && Consistent() && 32 <= Left() && index == at <= MAX_WORDS && Small(layout)
      requires executiveExit == layout.executive
      modifies `index, `failed, `out, image
      ensures Consistent() && Emitted(EnterWords(layout, at))
    {
      hide Consistent, Left, ClearUpTo, BranchWords;
      EnterOrLeave(layout, at);
      ClearRegisters(true);
    }

    // prologue.
    method EmitPrologue(ghost layout: Layout)
      requires Sized() && Consistent() && |Prologue(build, layout)| <= Left() && index == 0 && Small(layout)
      requires executiveExit == layout.executive && executiveWords == layout.words
      modifies `index, `failed, `out, image
      ensures Consistent() && Emitted(Prologue(build, layout))
    {
      hide FrameWords, ArgumentWords, EnterWords, Consistent, Left;
      PrologueParts(build, layout);
      Frame();
      Arguments(layout, index);
      EnterRestricted(layout, index);
    }

    // A gate call: the saved exit, the transfer, and the result register.
    method EmitTransfer()
      requires Sized() && Consistent() && 3 <= Left()
      modifies `index, `failed, `out, image
      ensures Consistent() && Emitted(TRANSFER)
    {
      hide Consistent, Left;
      Word(CapMov(13, LR));
      Word(Blrs(17));
      Word(CapMov(7, 0));
    }

    method EmitCall(operation: nat, pc: nat)
      requires Sized() && Consistent() && 5 <= Left() && operation < 0x10000 && pc < 0x10000
      modifies `index, `failed, `out, image
      ensures Consistent() && Emitted(CallWords(operation, pc))
    {
      hide Consistent, Left;
      Word(EncodeMovZ(4, operation, 0));
      Word(EncodeMovZ(5, pc, 0));
      EmitTransfer();
    }

    // The template of one instruction.
    method EmitBlock(pc: nat, ghost layout: Layout)
      requires Tables() && Formed(p) && pc < |p.insns| <= MAX_INSNS && p.insns[pc].code != Other
      requires Sized() && Consistent() && 5 <= Left() && index <= MAX_WORDS
      requires Small(layout) && |layout.offset| == |p.insns| + 1
      requires p.insns[pc].code.Call? ==> operation[pc] == Operation(p, p.insns[pc])
      requires p.insns[pc].code.Jeq? ==> offset[pc + 1 + p.insns[pc].off] == layout.offset[pc + 1 + p.insns[pc].off]
      requires restrictedExit == layout.restricted
      modifies `index, `failed, `out, image
      ensures Consistent() && Emitted(Block(p, layout, pc, old(index)))
    {
      hide Operation, Consistent, Left;
      var x := p.insns[pc];
      match x.code {
        case MovReg => Word(CapMov(NativeReg(x.dst), NativeReg(x.src)));
        case MovImm => Immediate(NativeReg(x.dst), Widen(x.imm));
        case Stx => Word(CapStr(NativeReg(x.src)));
        case Ldx => Word(CapLdr(NativeReg(x.dst)));
        case Jeq => Word(EncodeCbz(NativeReg(x.dst), offset[pc + 1 + x.off] - index));
        case Call => EmitCall(operation[pc], pc);
        case Exit => Word(EncodeB(restrictedExit - index));
      }
    }

    method EmitScrub()
      requires Sized() && Consistent() && 32 <= Left()
      modifies `index, `failed, `out, image
      ensures Consistent() && Emitted(ScrubWords())
    {
      hide Consistent, Left, ClearUpTo, ImmediateWords;
      Word(StrZr(0));
      Word(StrZr(8));
      Word(Mov(7, 7));
      assert out == old(out) + [StrZr(0), StrZr(8), Mov(7, 7)];
      ClearRegisters(false);
    }

    // The loop that pops them back.
    method PopPairs()
      requires Sized() && Consistent() && 5 <= Left()
      modifies `index, `failed, `out, image
      ensures Consistent() && Emitted(POPS)
    {
      hide Consistent, Left;
      var reg := 27;
      while reg >= 19
        invariant reg % 2 == 1 && 17 <= reg <= 27 && Consistent() && (reg - 17) / 2 <= Left()
        invariant Emitted(POPS[..(27 - reg) / 2])
      {
        Word(Pop(reg, reg + 1));
        reg := reg - 2;
      }
    }

    method EmitResult()
      requires Sized() && Consistent() && 3 <= Left()
      modifies `index, `failed, `out, image
      ensures Consistent() && Emitted(ResultWords(build))
    {
      hide Consistent, Left;
      Word(Pop(FP, LR));
      Word(Mov(0, 7));
      assert Emitted([Pop(FP, LR), Mov(0, 7)]);
      if build.pac { Word(AutiAsp); }
    }

    method EmitLeave()
      requires Sized() && Consistent() && 4 <= Left()
      modifies `index, `failed, `out, image
      ensures Consistent() && Emitted(LEAVE)
    {
      hide Consistent, Left;
      Word(GcTag(10, 16));
      Word(EncodeCbz(10, 2));
      assert Emitted([GcTag(10, 16), EncodeCbz(10, 2)]);
      Word(RetrC16);
      Word(Ret(LR));
    }

    method EmitReload()
      requires Sized() && Consistent() && 3 <= Left()
      modifies `index, `failed, `out, image
      ensures Consistent() && Emitted(RELOAD)
    {
      hide Consistent, Left;
      Word(AddSp);
      Word(LdrC16);
      Word(AddSp);
    }

    method EmitRestore()
      requires Sized() && Consistent() && |RestoreWords(build)| <= Left()
      modifies `index, `failed, `out, image
      ensures Consistent() && Emitted(RestoreWords(build))
    {
      hide Consistent, Left, ResultWords;
      ResultLength(build);
      EmitReload();
      PopPairs();
      assert Emitted(RELOAD + POPS);
      EmitResult();
      EmitLeave();
    }

    // Before the instruction at pc: the starts before it are recorded, and the tables agree with
    // the layout from there on; a pass that has an image finds every start recorded.
    ghost predicate Prepared(layout: Layout, start: nat, pc: nat)
      requires Tables() && |p.insns| <= MAX_INSNS
      reads `image, `restrictedExit, offset
    {
      && |layout.offset| == |p.insns| + 1 && Small(layout) && restrictedExit == layout.restricted
      && (forall k :: 0 <= k < pc && k <= |p.insns| ==> offset[k] == Offset(p, start, k))
      && (forall k :: pc <= k <= |p.insns| ==> offset[k] == layout.offset[k])
      && (image != null ==> forall k :: 0 <= k <= |p.insns| ==> offset[k] == Offset(p, start, k))
    }

    // Only admitted instructions, with their recorded operations.
    ghost predicate Ready()
      requires Tables() && |p.insns| <= MAX_INSNS
      reads operation
    {
      && Formed(p)
      && (forall i :: 0 <= i < |p.insns| ==> !p.insns[i].code.Other?)
      && forall i :: 0 <= i < |p.insns| && p.insns[i].code.Call? ==> operation[i] == Operation(p, p.insns[i])
    }

    // One turn of the body's loop: record or check the start, then emit the template.
    method EmitInstruction(pc: nat, ghost layout: Layout, ghost start: nat)
      requires Tables() && pc < |p.insns| <= MAX_INSNS && Ready() && Prepared(layout, start, pc)
      requires Sized() && Consistent() && index == Offset(p, start, pc) <= MAX_WORDS && 5 <= Left()
      modifies `index, `failed, `out, image, offset
      ensures Consistent() && Emitted(Block(p, layout, pc, Offset(p, start, pc)))
      ensures Prepared(layout, start, pc + 1)
    {
      hide Block, Operation, Left, Offset;
      if image == null {
        offset[pc] := index;
      } else {
        failed := failed || offset[pc] != index;
      }
      assert Consistent();
      hide Consistent;
      EmitBlock(pc, layout);
    }

    // The end of the body is recorded or checked like a start.
    method EmitEnd(ghost layout: Layout, ghost start: nat)
      requires Tables() && |p.insns| <= MAX_INSNS && Prepared(layout, start, |p.insns|)
      requires Sized() && Consistent() && index == Offset(p, start, |p.insns|)
      modifies `failed, offset
      ensures Consistent() && forall k :: 0 <= k <= |p.insns| ==> offset[k] == Offset(p, start, k)
    {
      var pc := |p.insns|;
      if image == null {
        offset[pc] := index;
      } else {
        failed := failed || offset[pc] != index;
      }
    }

    // body. A pass without an image records the starts; the others check them.
    method EmitBody(ghost layout: Layout, ghost start: nat)
      requires Tables() && |p.insns| <= MAX_INSNS && Ready() && Prepared(layout, start, 0)
      requires Sized() && Consistent() && index == start <= 60
      requires Offset(p, start, |p.insns|) - start + 5 <= Left()
      modifies `index, `failed, `out, image, offset
      ensures Consistent() && Emitted(Body(p, layout, start, |p.insns|))
      ensures forall k :: 0 <= k <= |p.insns| ==> offset[k] == Offset(p, start, k)
    {
      hide Left, Block, BlockLength, Operation, Small, Consistent, Ready, Formed, Offset;
      var pc, n := 0, |p.insns|;
      ReadyForms();
      PreparedLength(layout, start, 0);
      hide Prepared;
      while pc < n
        invariant pc <= n && Tables() && Ready() && Consistent() && Prepared(layout, start, pc)
        invariant Emitted(Body(p, layout, start, pc))
      {
        OffsetsGrow(p, start, pc, n);
        EmitInstruction(pc, layout, start);
        pc := pc + 1;
      }
      EmitEnd(layout, start);
    }

    lemma ReadyForms()
      requires Tables() && |p.insns| <= MAX_INSNS && Ready()
      ensures Formed(p)
    {
    }

    lemma PreparedLength(layout: Layout, start: nat, pc: nat)
      requires Tables() && |p.insns| <= MAX_INSNS && Prepared(layout, start, pc)
      ensures |layout.offset| == |p.insns| + 1
    {
    }

    // The exits' bookkeeping around the epilogue.
    method EmitExit()
      requires Sized() && Consistent() && index < MAX_WORDS && 1 <= Left()
      requires image != null ==> restrictedExit == index && executiveExit == index + 1
      modifies `index, `failed, `out, image, `restrictedExit, `executiveExit
      ensures Consistent() && Emitted([RetClr])
      ensures restrictedExit == old(index) && executiveExit == old(index) + 1
    {
      if image == null {
        restrictedExit := index;
      } else {
        failed := failed || restrictedExit != index;
      }
      Word(RetClr);
      if image == null {
        executiveExit := index;
      } else {
        failed := failed || executiveExit != index;
      }
    }

    // epilogue.
    method EmitEpilogue()
      requires Sized() && Consistent() && index < MAX_WORDS && 1 + EpilogueLength(build) <= Left()
      requires image != null ==>
        restrictedExit == index && executiveExit == index + 1 && executiveWords == EpilogueLength(build)
      modifies `index, `failed, `out, image, `restrictedExit, `executiveExit, `executiveWords
      ensures Consistent() && Emitted([RetClr] + Epilogue(build))
      ensures restrictedExit == old(index) && executiveExit == old(index) + 1
      ensures executiveWords == EpilogueLength(build)
    {
      hide ScrubWords, RestoreWords, Left;
      EpilogueParts(build);
      EmitExit();
      var start := index;
      EmitScrub();
      EmitRestore();
      assert Emitted([RetClr] + Epilogue(build));
      if image == null {
        executiveWords := index - start;
      } else {
        failed := failed || executiveWords != index - start;
      }
    }

    // ---- A pass ----

    // The layout this pass reads: blank before the first, the recorded one afterwards.
    ghost function Read(): (l: Layout)
      reads `image
      ensures |l.offset| == |p.insns| + 1
    {
      if image == null then Blank(|p.insns|) else Recorded(build, p)
    }

    ghost predicate Holds(l: Layout)
      requires Tables() && |p.insns| <= MAX_INSNS && |l.offset| == |p.insns| + 1
      reads `restrictedExit, `executiveExit, `executiveWords, offset
    {
      && (forall k :: 0 <= k <= |p.insns| ==> offset[k] == l.offset[k])
      && restrictedExit == l.restricted && executiveExit == l.executive && executiveWords == l.words
    }

    // generate. The first pass records the layout; a write pass leaves the image of that layout;
    // a check pass fails exactly when the image it is given differs from it.
    method Generate()
      requires Tables() && |p.insns| <= MAX_INSNS && Ready() && Holds(Read()) && !failed
      requires image != null ==> image.Length == words == |Image(build, p)|
      modifies `index, `failed, `out, `given, image, offset, `restrictedExit, `executiveExit, `executiveWords
      ensures Holds(Recorded(build, p)) && index == |Image(build, p)|
      ensures image == null || !check ==> !failed
      ensures image != null && !check ==> image[..] == Image(build, p)
      ensures image != null && check ==>
        image[..] == old(image[..]) && (failed <==> image[..] != Image(build, p))
    {
      hide Words, Recorded, Ready, Left, Holds;
      ReadyForms();
      ghost var layout := Read();
      WordCount(build, p, layout);
      WordCount(build, p, Recorded(build, p));
      index, out, given := 0, [], if image != null then image[..] else [];
      Begins();
      EmitPasses(layout);
    }

    // A pass starts consistent, with room for its words.
    lemma Begins()
      requires index == 0 && out == [] && !failed && |p.insns| <= MAX_INSNS && Formed(p)
      requires image != null ==> given == image[..] && image.Length == words == |Image(build, p)|
      ensures Consistent() && Sized() && |Image(build, p)| <= Left()
    {
      WordCount(build, p, Recorded(build, p));
      hide Words, Recorded;
    }

    // The exits a pass with an image finds recorded.
    ghost predicate ExitsAt(end: nat)
      reads `restrictedExit, `executiveExit, `executiveWords
    {
      restrictedExit == end && executiveExit == end + 1 && executiveWords == EpilogueLength(build)
    }

    // The body and the epilogue.
    method EmitRest(ghost layout: Layout, ghost start: nat)
      requires Tables() && |p.insns| <= MAX_INSNS && Ready() && Prepared(layout, start, 0)
      requires Sized() && Consistent() && index == start <= 60
      requires Offset(p, start, |p.insns|) - start + 1 + EpilogueLength(build) <= Left()
      requires image != null ==> ExitsAt(Offset(p, start, |p.insns|))
      modifies `index, `failed, `out, image, offset, `restrictedExit, `executiveExit, `executiveWords
      ensures Formed(p) && Consistent()
      ensures |layout.offset| == |p.insns| + 1
      ensures Emitted(Body(p, layout, start, |p.insns|) + ([RetClr] + Epilogue(build)))
      ensures ExitsAt(Offset(p, start, |p.insns|))
      ensures forall k :: 0 <= k <= |p.insns| ==> offset[k] == Offset(p, start, k)
    {
      hide Consistent, Left, Epilogue, Body, Formed, Offset, Prepared, Ready;
      ReadyForms();
      PreparedLength(layout, start, 0);
      EmitBody(layout, start);
      EmitEpilogue();
    }

    // The three parts in order.
    method EmitPasses(ghost layout: Layout)
      requires Tables() && |p.insns| <= MAX_INSNS && Ready() && layout == Read() && Holds(layout)
      requires Sized() && Consistent() && index == 0 && out == [] && Formed(p) && |Words(build, p, layout)| <= Left()
      modifies `index, `failed, `out, image, offset, `restrictedExit, `executiveExit, `executiveWords
      ensures Consistent() && out == Words(build, p, layout) && Holds(Recorded(build, p))
    {
      hide Consistent, Left, Prologue, Epilogue, Body, Ready, Formed, Offset, Small, Holds, Recorded, Prepared, Read,
        ExitsAt, Words;
      var start := PrologueLength(build);
      Planned(layout);
      EmitPrologue(layout);
      EmitRest(layout, start);
      WordsParts(build, p, layout);
      HasRecorded();
    }

    // The three passes: lay out, write, check.
    method Produce(memory: bool) returns (done: bool)
      requires Tables() && |p.insns| <= MAX_INSNS && Ready() && Holds(Blank(|p.insns|))
      requires image == null && !failed && !check && 0 < |Image(build, p)|
      modifies this, offset
      ensures done == memory && Holds(Recorded(build, p))
      ensures done ==> image != null && words == |Image(build, p)| && image[..] == Image(build, p)
    {
      hide Ready, Holds, Image, Recorded, Blank, Formed;
      ReadyForms();
      Generate();
      words := index;
      if failed || words == 0 { assert false; }
      if !memory { return false; }
      image := new Native[words](_ => BreakFault);
      Generate();
      check := true;
      Generate();
      if failed || index != words { assert false; }
      done := true;
    }

    // Word offsets become byte offsets.
    method ScaleStarts()
      requires Tables() && |p.insns| <= MAX_INSNS && Holds(Recorded(build, p))
      modifies offset
      ensures offset[..|p.insns| + 1]
        == seq(|p.insns| + 1, k requires 0 <= k <= |p.insns| => 4 * Recorded(build, p).offset[k])
    {
      hide Recorded;
      ghost var starts := Recorded(build, p).offset;
      for pc := 0 to |p.insns| + 1
        invariant forall k :: 0 <= k < pc ==> offset[k] == 4 * starts[k]
        invariant forall k :: pc <= k <= |p.insns| ==> offset[k] == starts[k]
      {
        offset[pc] := offset[pc] * 4;
      }
    }

    lemma Planned(layout: Layout)
      requires Tables() && |p.insns| <= MAX_INSNS && Formed(p) && layout == Read() && Holds(layout)
      ensures var start, n := PrologueLength(build), |p.insns|;
        && Small(layout) && Prepared(layout, start, 0) && start <= 58 && |Prologue(build, layout)| == start
        && executiveExit == layout.executive && executiveWords == layout.words
        && |Words(build, p, layout)| == Offset(p, start, n) + 1 + EpilogueLength(build)
        && (image != null ==> ExitsAt(Offset(p, start, n)))
    {
      TemplateLengths(build, layout);
      WordCount(build, p, layout);
      LayoutsSmall(build, p);
      hide Words, Prologue, Small;
    }

    lemma HasRecorded()
      requires Tables() && |p.insns| <= MAX_INSNS
      requires var start := PrologueLength(build);
        ExitsAt(Offset(p, start, |p.insns|)) && forall k :: 0 <= k <= |p.insns| ==> offset[k] == Offset(p, start, k)
      ensures Holds(Recorded(build, p))
    {
    }
  }

  lemma WordsParts(build: Build, p: Program, layout: Layout)
    requires Formed(p) && |layout.offset| == |p.insns| + 1
    ensures Words(build, p, layout) == Prologue(build, layout)
      + (Body(p, layout, PrologueLength(build), |p.insns|) + ([RetClr] + Epilogue(build)))
  {
    TemplateLengths(build, layout);
    hide Prologue, Epilogue, Body, Formed;
  }

  lemma OffsetsGrow(p: Program, start: nat, a: nat, b: nat)
    requires a <= b <= |p.insns|
    ensures Offset(p, start, a) <= Offset(p, start, b) <= Offset(p, start, a) + 5 * (b - a)
    decreases b - a
  {
    if a < b { OffsetsGrow(p, start, a, b - 1); }
  }

  lemma EpilogueParts(build: Build)
    ensures |ScrubWords()| == 32 && |RestoreWords(build)| == EpilogueLength(build) - 32
  {
    ClearLength(false, 30);
  }

  lemma PrologueParts(build: Build, layout: Layout)
    ensures |FrameWords(build)| <= 13 && |ArgumentWords(build, layout, |FrameWords(build)|)| == 13
    ensures |EnterWords(layout, |FrameWords(build)| + 13)| == 32
  {
    hide ClearUpTo;
    ClearLength(true, 30);
  }

  lemma MarksLength(build: Build)
    ensures |EntryMarks(build)| <= 4
  {
  }

  lemma ResultLength(build: Build)
    ensures |ResultWords(build)| <= 3
  {
  }

  // ---- The whole compilation ----

  // What the compiler asks of a program besides its instructions.
  datatype Request = Request(
    jitRequested: bool,
    blinding: bool,
    schedCls: bool,
    isFunc: bool,
    funcs: nat,
    funcInfos: nat,
    maps: nat)

  predicate Eligible(r: Request, n: nat)
  {
    r.jitRequested && !r.blinding && r.schedCls && !r.isFunc && r.funcs == 0 && r.funcInfos == 0 && r.maps == 0
    && 0 < n <= MAX_INSNS
  }

  lemma EligibleExactly(r: Request, insns: seq<Insn>)
    ensures Eligible(r, |insns|) <==>
      r == Request(true, false, true, false, 0, 0, 0) && insns != [] && |insns| <= 64
  {
  }

  // Declined programs have no fallback.
  datatype Outcome =
    | Accepted(image: seq<Native>, bytes: nat, starts: seq<nat>)
    | Declined(error: Error)
    | NoMemory

  lemma AdmittedForms(p: Program)
    requires Admission.Admit(p).Admitted?
    ensures Formed(p) && forall i :: 0 <= i < |p.insns| ==> !p.insns[i].code.Other?
  {
    AdmittedIsClosed(p);
    hide Admit, Formed, Closed;
    forall i | 0 <= i < |p.insns| ensures !p.insns[i].code.Other? {
      assert Check(p, i, Admission.Admit(p).flow[i], 0).None?;
    }
  }

  // cbpf_jit_compile. The allocations may fail; nothing else can once a program is admitted: no
  // self-check trips and no word is out of range. The result is the image of the recorded layout.
  method Compile(p: Program, build: Build, r: Request, contextMemory: bool, imageMemory: bool) returns (o: Outcome)
    ensures r != Request(true, false, true, false, 0, 0, 0) || p.insns == [] || |p.insns| > 64 ==>
      o == Declined(Unsupported)
    ensures r == Request(true, false, true, false, 0, 0, 0) && p.insns != [] && |p.insns| <= 64 && !contextMemory ==>
      o == NoMemory
    ensures r == Request(true, false, true, false, 0, 0, 0) && p.insns != [] && |p.insns| <= 64 && contextMemory ==>
      match Admission.Admit(p)
      case Rejected(e) => o == Declined(e)
      case Admitted(_) =>
        if !imageMemory then o == NoMemory
        else
          && Formed(p) && |Image(build, p)| <= 426
          && o == Accepted(Image(build, p), 4 * |Image(build, p)|,
                           seq(|p.insns| + 1, k requires 0 <= k <= |p.insns| => 4 * Recorded(build, p).offset[k]))
  {
    EligibleExactly(r, p.insns);
    hide Eligible;
    if !Eligible(r, |p.insns|) { return Declined(Unsupported); }
    if !contextMemory { return NoMemory; }
    hide Admit, Formed, Image, Recorded, Operation, Check, Blank;
    var c := new Compiler(p, build);
    assert c.Holds(Blank(|p.insns|)) by { BlankIsZero(|p.insns|); }
    var error := c.Admit();
    if error.Some? { return Declined(error.value); }
    AdmittedForms(p);
    ImageSize(build, p);
    var done := c.Produce(imageMemory);
    if !done { return NoMemory; }
    c.ScaleStarts();
    o := Accepted(c.image[..], 4 * c.words, c.offset[..|p.insns| + 1]);
  }

  lemma BlankIsZero(n: nat)
    ensures var l := Blank(n);
      l.restricted == l.executive == l.words == 0 && forall i :: 0 <= i <= n ==> l.offset[i] == 0
  {
  }

  lemma ImageSize(build: Build, p: Program)
    requires Formed(p) && |p.insns| <= MAX_INSNS
    ensures 0 < |Image(build, p)| <= 426
  {
    WordCount(build, p, Recorded(build, p));
    hide Words;
  }

  // cbpf_jit_match: the program is marked if it is already, or makes any gate call.
  method Match(p: Program, marked: bool) returns (gated: bool)
    ensures gated <==> marked || Matches(p)
    ensures gated <==> marked || exists pc, k :: 0 <= pc < |p.insns| && Calls(p, p.insns[pc], k)
  {
    forall pc | 0 <= pc < |p.insns| ensures Operation(p, p.insns[pc]) != 0 <==> exists k :: Calls(p, p.insns[pc], k) {
      OperationExactly(p, p.insns[pc]);
    }
    hide Operation, Calls;
    for pc := 0 to |p.insns|
      invariant forall i :: 0 <= i < pc ==> Operation(p, p.insns[i]) == 0
    {
      if Operation(p, p.insns[pc]) != 0 { return true; }
    }
    gated := marked;
  }

  // Everything the compiler admits is marked, so the wrapper runs it.
  lemma AdmittedMatches(p: Program)
    requires Admission.Admit(p).Admitted?
    ensures Matches(p)
  {
    AdmittedCounts(p);
    SiteMatches(p, 0);
  }

  lemma {:induction false} SiteMatches(p: Program, pc: nat)
    requires pc <= |p.insns| && Sites(p, pc) > 0
    ensures Matches(p)
    decreases |p.insns| - pc
  {
    if IsAcquire(p, p.insns[pc]) == 0 { SiteMatches(p, pc + 1); }
  }
}
