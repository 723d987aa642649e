/** Source steps inside one activation: instructions, jumps and branches. */
module StepProofs {
  import opened Wrappers
  import opened Words
  import opened Evm
  import opened Lowered
  import opened Semantics
  import opened LiveSets
  import opened Shuffler
  import opened Codegen
  import opened InstructionProofs
  import opened ControlProofs
  import opened Image
  import opened Activations

  function CurrentInst(img: Image, a: Act): Instruction
    requires a.frame.fn in img.units && a.frame.block in img.units[a.frame.fn].fn.cfg.blocks
    requires a.frame.index < |BlockOf(img, a).instructions|
  {
    BlockOf(img, a).instructions[a.frame.index]
  }

  // ---------------------------------------------------------------------------
  // Homes
  // ---------------------------------------------------------------------------

  lemma HomeIsFindable(s: Slot, alloc: Allocation, base: nat, cur: seq<Slot>, regs: Regs, memory: map<nat, Word>)
    requires AtHome(s, alloc, base, cur, regs, memory)
    ensures Findable(s, cur, regs, base, memory)
  {
  }

  lemma LiveUnfolds(img: Image, a: Act, k: nat)
    requires Located(img, a) && k < |BlockOf(img, a).instructions|
    ensures var inst := BlockOf(img, a).instructions[k];
            LiveAt(img, a, k) == (LiveAt(img, a, k + 1) - Defs(inst)) + Uses(inst)
  {
    var insts := BlockOf(img, a).instructions;
    assert insts[k..][0] == insts[k] && insts[k..][1..] == insts[k + 1..];
  }

  lemma LiveAtEnd(img: Image, a: Act)
    requires Located(img, a)
    ensures LiveAt(img, a, |BlockOf(img, a).instructions|)
         == TerminatorUses(BlockOf(img, a).terminator) + img.live[a.frame.fn].liveOut[a.frame.block]
  {
  }

  lemma RestUnfolds(img: Image, a: Act, k: nat, bs: seq<Slot>, next: Label)
    requires Located(img, a) && k < |BlockOf(img, a).instructions|
    requires RestOf(img, a, k, bs, next).Ok?
    ensures var inst := BlockOf(img, a).instructions[k];
            var head := InstructionCode(inst, ContextIn(img, a.frame.fn), EntryOf(img, a), bs, next);
            && head.Ok?
            && var tail := RestOf(img, a, k + 1, head.value.blockStack, head.value.next);
               && tail.Ok?
               && RestOf(img, a, k, bs, next).value.code == head.value.code + tail.value.code
               && (RestOf(img, a, k, bs, next).value.whole ==> tail.value.whole)
  {
    var insts := BlockOf(img, a).instructions;
    assert insts[k..][0] == insts[k] && insts[k..][1..] == insts[k + 1..];
  }

  lemma UsesFound(img: Image, a: Act, memory: map<nat, Word>)
    requires Located(img, a) && a.frame.index < |BlockOf(img, a).instructions|
    requires AllHome(LiveAt(img, a, a.frame.index), img, a, memory)
    ensures UsesFindable(CurrentInst(img, a), Cur(img, a), a.frame.regs, img.units[a.frame.fn].base, memory)
  {
    LiveUnfolds(img, a, a.frame.index);
    forall s | s in Uses(CurrentInst(img, a))
      ensures Findable(s, Cur(img, a), a.frame.regs, img.units[a.frame.fn].base, memory)
    {
      assert s in LiveAt(img, a, a.frame.index);
      HomeIsFindable(s, AllocOf(img, a), img.units[a.frame.fn].base, Cur(img, a), a.frame.regs, memory);
    }
  }

  /** The memory after a store to `d`, and the activation's slots after it. */
  ghost predicate Stored(img: Image, a: Act, d: Slot, w: Word, a': Act, memory: map<nat, Word>, memory': map<nat, Word>)
    requires a.frame.fn in img.units && a.frame.fn in img.firsts
  {
    && a'.frame.fn == a.frame.fn && a'.frame.block == a.frame.block
    && a'.frame.regs == a.frame.regs[d := w]
    && a'.blockStack == AfterStore(d, AllocOf(img, a), EntryOf(img, a), a.blockStack)
    && memory' == MemoryAfter(d, w, ContextIn(img, a.frame.fn), memory)
  }

  lemma DestinationBelow(img: Image, a: Act, d: Slot)
    requires Good(img) && Located(img, a) && a.frame.index < |BlockOf(img, a).instructions|
    requires Destination(CurrentInst(img, a)) == Some(d)
    ensures d < img.sizes[a.frame.fn] && !HasCopy(img.units[a.frame.fn], d)
  {
    GoodFunction(img, a.frame.fn);
    assert SlotsAt(img.units[a.frame.fn], img.live[a.frame.fn], img.sizes[a.frame.fn], a.frame.block);
    assert SlotsBelow(CurrentInst(img, a), img.sizes[a.frame.fn]);
    assert d in Defs(CurrentInst(img, a));
  }

  /** A store gives its slot a home, moves no other, and touches only its own frame. */
  lemma StoreKeepsHomes(
      img: Image, a: Act, d: Slot, w: Word, a': Act, memory: map<nat, Word>, memory': map<nat, Word>, live: set<Slot>)
    requires Good(img) && Located(img, a) && d < img.sizes[a.frame.fn]
    requires forall s :: s in live ==> s < img.sizes[a.frame.fn]
    requires Stored(img, a, d, w, a', memory, memory')
    requires AllHome(live - {d}, img, a, memory) && !HasCopy(img.units[a.frame.fn], d)
    ensures AllHome(live, img, a', memory')
    ensures OnlyFrame(img, a.frame.fn, memory, memory')
  {
    hide HasCopy, Good;
    GoodFrames(img);
    var alloc, base := AllocOf(img, a), img.units[a.frame.fn].base;
    forall s | HasCopy(img.units[a.frame.fn], s)
      ensures Load(memory', MemoryOffset(base, s)) == Read(a'.frame.regs, s)
    {
      CopyBelow(img, a.frame.fn, s);
      OffsetsApart(img, a.frame.fn, a.frame.fn, d, s);
    }
    forall s | s in live ensures AtHome(s, alloc, base, Cur(img, a'), a'.frame.regs, memory') {
      if s != d {
        assert s in live - {d};
        assert AtHome(s, alloc, base, Cur(img, a), a.frame.regs, memory);
        OffsetsApart(img, a.frame.fn, a.frame.fn, d, s);
      }
    }
    forall g, s | g in img.units && g in img.sizes && g != a.frame.fn && s < img.sizes[g]
      ensures Load(memory', MemoryOffset(img.units[g].base, s)) == Load(memory, MemoryOffset(img.units[g].base, s))
    {
      OffsetsApart(img, a.frame.fn, g, d, s);
    }
  }

  lemma StoreKeepsShape(d: Slot, alloc: Allocation, entry: seq<Slot>, bs: seq<Slot>)
    requires Shape(bs + entry, alloc)
    ensures Shape(AfterStore(d, alloc, entry, bs) + entry, alloc)
  {
    var bs' := AfterStore(d, alloc, entry, bs);
    if bs' != bs {
      assert bs' + entry == [d] + (bs + entry);
    }
  }

  // ---------------------------------------------------------------------------
  // Instructions
  // ---------------------------------------------------------------------------

  /** The code of the instruction an activation is at. */
  function HeadCode(img: Image, a: Act): Result<Piece>
    requires Located(img, a) && a.frame.index < |BlockOf(img, a).instructions|
  {
    InstructionCode(CurrentInst(img, a), ContextIn(img, a.frame.fn), EntryOf(img, a), a.blockStack, a.next)
  }

  /** The state after an instruction that is not a call. */
  function NextAct(img: Image, a: Act, storage: map<Word, Word>): Act
    requires Located(img, a) && a.frame.index < |BlockOf(img, a).instructions|
    requires HeadCode(img, a).Ok?
  {
    var p := HeadCode(img, a).value;
    Act(a.frame.(index := a.frame.index + 1, regs := ExecuteRegs(CurrentInst(img, a), a.frame.regs, storage)),
        p.blockStack, p.next, a.pc + |p.code|)
  }

  lemma NotNegate(img: Image, a: Act)
    requires Good(img) && Located(img, a) && a.frame.index < |BlockOf(img, a).instructions|
    ensures NegateSafe(CurrentInst(img, a), a.frame.regs)
  {
    GoodFunction(img, a.frame.fn);
    assert !IsNegate(img.units[a.frame.fn].fn.cfg.blocks[a.frame.block].instructions[a.frame.index]);
  }

  lemma InstructionSim(img: Image, a: Act, rest: seq<Word>, s: Local) returns (a': Act, s': Local, n: nat)
    requires Good(img) && TopOk(img, a, s.memory)
    requires a.frame.index < |BlockOf(img, a).instructions| && !CurrentInst(img, a).Call?
    requires s.stack == RegValues(Cur(img, a), a.frame.regs) + rest
    ensures a'.frame == a.frame.(index := a.frame.index + 1,
        regs := ExecuteRegs(CurrentInst(img, a), a.frame.regs, s.storage))
    ensures n > 0 && Reaches(img.code, Machine(a.pc, s), n, Machine(a'.pc, s'))
    ensures TopOk(img, a', s'.memory)
    ensures s'.stack == RegValues(Cur(img, a'), a'.frame.regs) + rest
    ensures s'.storage == ExecuteStorage(CurrentInst(img, a), a.frame.regs, s.storage)
    ensures OnlyFrame(img, a.frame.fn, s.memory, s'.memory)
  {
    hide InstructionCode, RestCode, Reaches, Good, LiveBefore, TopOk, RegValues, Run, ExecuteRegs, ExecuteStorage,
        OnlyFrame, AllHome;
    TopOpen(img, a, s.memory);
    InstructionPlace(img, a, s.storage);
    UsesFound(img, a, s.memory);
    NotNegate(img, a);
    var p := HeadCode(img, a).value;
    a', n := NextAct(img, a, s.storage), |p.code|;
    s' := InstructionMachine(img.code, a.pc, CurrentInst(img, a), ContextIn(img, a.frame.fn), EntryOf(img, a),
                             a.blockStack, a.next, p, a.frame.regs, rest, s);
    CodeNotEmpty(CurrentInst(img, a), ContextIn(img, a.frame.fn), EntryOf(img, a), a.blockStack, a.next);
    HomesAfter(img, a, a', s, s'.memory);
    TopClose(img, a', s'.memory);
  }

  lemma CodeNotEmpty(inst: Instruction, ctx: Context, entry: seq<Slot>, bs: seq<Slot>, next: Label)
    requires InstructionCode(inst, ctx, entry, bs, next).Ok?
    ensures InstructionCode(inst, ctx, entry, bs, next).value.code != []
  {
  }

  /** The machine side of an instruction. */
  lemma InstructionMachine(
      code: seq<Asm>, pc: nat, inst: Instruction, ctx: Context, entry: seq<Slot>, bs: seq<Slot>, next: Label, p: Piece,
      regs: Regs, rest: seq<Word>, s: Local)
    returns (s': Local)
    requires !inst.Call? && NegateSafe(inst, regs)
    requires Shape(bs + entry, ctx.alloc)
    requires s.stack == RegValues(bs + entry, regs) + rest
    requires UsesFindable(inst, bs + entry, regs, ctx.base, s.memory)
    requires InstructionCode(inst, ctx, entry, bs, next) == Ok(p) && CodeAt(code, pc, p.code)
    ensures p.blockStack == BlockStackAfter(inst, ctx.alloc, entry, bs)
    ensures Reaches(code, Machine(pc, s), |p.code|, Machine(pc + |p.code|, s'))
    ensures s'.stack == RegValues(p.blockStack + entry, ExecuteRegs(inst, regs, s.storage)) + rest
    ensures s'.storage == ExecuteStorage(inst, regs, s.storage)
    ensures s'.memory == InstructionMemory(inst, ctx, regs, s)
  {
    hide InstructionCode;
    InstructionRun(inst, ctx, entry, bs, next, regs, rest, Labels(code), s);
    s' := Run(p.code, Labels(code), s).value;
    RunReaches(code, pc, p.code, s, s');
  }

  /** After an instruction the rest of the block is next. */
  lemma InstructionPlace(img: Image, a: Act, storage: map<Word, Word>)
    requires Located(img, a) && a.frame.index < |BlockOf(img, a).instructions|
    requires RestOf(img, a, a.frame.index, a.blockStack, a.next).Ok?
    requires RestOf(img, a, a.frame.index, a.blockStack, a.next).value.whole
    requires CodeAt(img.code, a.pc, RestOf(img, a, a.frame.index, a.blockStack, a.next).value.code)
    ensures HeadCode(img, a).Ok? && CodeAt(img.code, a.pc, HeadCode(img, a).value.code)
    ensures var a' := NextAct(img, a, storage);
            && RestOf(img, a', a'.frame.index, a'.blockStack, a'.next).Ok?
            && RestOf(img, a', a'.frame.index, a'.blockStack, a'.next).value.whole
            && CodeAt(img.code, a'.pc, RestOf(img, a', a'.frame.index, a'.blockStack, a'.next).value.code)
  {
    RestUnfolds(img, a, a.frame.index, a.blockStack, a.next);
    var p := HeadCode(img, a).value;
    CodeAtSplit(img.code, a.pc, p.code, RestOf(img, a, a.frame.index + 1, p.blockStack, p.next).value.code);
  }

  lemma HomesAfter(img: Image, a: Act, a': Act, s: Local, memory': map<nat, Word>)
    requires Good(img) && Located(img, a) && Shape(Cur(img, a), AllocOf(img, a))
    requires a.frame.index < |BlockOf(img, a).instructions| && !CurrentInst(img, a).Call?
    requires AllHome(LiveAt(img, a, a.frame.index), img, a, s.memory)
    requires HeadCode(img, a).Ok?
    requires a' == NextAct(img, a, s.storage)
    requires a'.blockStack == BlockStackAfter(CurrentInst(img, a), AllocOf(img, a), EntryOf(img, a), a.blockStack)
    requires memory' == InstructionMemory(CurrentInst(img, a), ContextIn(img, a.frame.fn), a.frame.regs, s)
    ensures Shape(Cur(img, a'), AllocOf(img, a))
    ensures AllHome(LiveAt(img, a', a'.frame.index), img, a', memory')
    ensures OnlyFrame(img, a.frame.fn, s.memory, memory')
  {
    var inst := CurrentInst(img, a);
    var live := LiveAt(img, a, a.frame.index + 1);
    LiveUnfolds(img, a, a.frame.index);
    LiveAtBelow(img, a, a.frame.index + 1);
    if inst.StorageStore? {
      assert live <= LiveAt(img, a, a.frame.index);
    } else {
      var w := InstructionValue(inst, a.frame.regs, s.storage);
      DestinationBelow(img, a, inst.dest);
      AssignsValue(inst, a.frame.regs, s.storage);
      StoreKeepsShape(inst.dest, AllocOf(img, a), EntryOf(img, a), a.blockStack);
      StoreKeepsHomes(img, a, inst.dest, w, a', s.memory, memory', live);
    }
  }
}
