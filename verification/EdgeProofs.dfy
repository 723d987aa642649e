/** Jumps and branches: leaving a block along an edge and entering the successor. */
module EdgeProofs {
  import opened Wrappers
  import opened Words
  import opened Evm
  import opened Lowered
  import opened Semantics
  import opened LiveSets
  import opened Shuffler
  import opened Codegen
  import opened InstructionProofs
  import opened ControlProofs
  import opened Image
  import opened Activations
  import opened StepProofs

  /** Every live-in slot of a block is at home when the stack holds the block's layout, and the copies are valid. */
  ghost predicate ReadyFor(img: Image, fn: FnId, b: BlockId, regs: Regs, memory: map<nat, Word>)
    requires fn in img.units && fn in img.live && b in img.live[fn].liveIn
  {
    && (forall x :: x in img.live[fn].liveIn[b] ==>
          AtHome(x, img.units[fn].alloc, img.units[fn].base, Layout(img.units[fn].alloc, b), regs, memory))
    && CopiesValid(img, fn, regs, memory)
  }

  ghost predicate Known(img: Image, fn: FnId) {
    fn in img.units && fn in img.firsts && fn in img.live && fn in img.sizes && fn in img.reach && fn in img.starts
        && fn in img.calls
  }

  lemma UnitKnown(img: Image, fn: FnId)
    requires Good(img) && fn in img.units
    ensures Known(img, fn)
    ensures img.live[fn].liveIn.Keys == img.units[fn].fn.cfg.blocks.Keys
    ensures img.live[fn].liveOut.Keys == img.units[fn].fn.cfg.blocks.Keys
  {
    GoodFunction(img, fn);
  }

  lemma BlockLiveIn(img: Image, fn: FnId, b: BlockId)
    requires Good(img) && fn in img.units && b in img.units[fn].fn.cfg.blocks
    requires Known(img, fn) && b in img.live[fn].liveIn && b in img.live[fn].liveOut
    ensures img.live[fn].liveIn[b] ==
            LiveBefore(img.units[fn].fn.cfg.blocks[b].instructions, img.units[fn].fn.cfg.blocks[b].terminator,
                img.live[fn].liveOut[b])
  {
    GoodFunction(img, fn);
    assert EquationsAt(img.units[fn].fn.cfg, img.live[fn], b);
    BlockTransfer(img.units[fn].fn.cfg.blocks[b], img.live[fn].liveOut[b]);
  }

  lemma BlockLayout(img: Image, fn: FnId, b: BlockId)
    requires Good(img) && fn in img.units && b in img.units[fn].fn.cfg.blocks
    requires Known(img, fn) && b in img.live[fn].liveIn
    ensures LayoutAt(img.units[fn], img.live[fn], b)
  {
    GoodFunction(img, fn);
  }

  /** Behind a block's JUMPDEST and prologue the machine runs the block's body. */
  lemma BodyTop(img: Image, fn: FnId, b: BlockId, next: Label, pc: nat, regs: Regs, memory: map<nat, Word>)
    requires Good(img) && fn in img.units && b in img.units[fn].fn.cfg.blocks
    requires Known(img, fn) && b in img.live[fn].liveIn && b in img.live[fn].liveOut
    requires var body := RestCode(img.units[fn].fn.cfg.blocks[b].instructions,
        img.units[fn].fn.cfg.blocks[b].terminator,
                                  ContextIn(img, fn), Layout(img.units[fn].alloc, b), [], next);
             body.Ok? && body.value.whole && CodeAt(img.code, pc, body.value.code)
    requires ReadyFor(img, fn, b, regs, memory)
    ensures TopOk(img, Act(Frame(fn, b, 0, regs), [], next, pc), memory)
    ensures Cur(img, Act(Frame(fn, b, 0, regs), [], next, pc)) == Layout(img.units[fn].alloc, b)
  {
    var a := Act(Frame(fn, b, 0, regs), [], next, pc);
    assert [] + EntryOf(img, a) == EntryOf(img, a);
    assert BlockOf(img, a).instructions[0..] == BlockOf(img, a).instructions;
    BlockLiveIn(img, fn, b);
    BlockLayout(img, fn, b);
    TopClose(img, a, memory);
  }

  /** The code of a block that is not the entry: a mark, a JUMPDEST and the body. */
  lemma InnerBlock(u: Unit, ctx: Context, b: BlockId, next: Label)
    requires BlockCode(u, ctx, b, next).Ok? && b != u.fn.cfg.entry && b in ctx.labels && b in u.fn.cfg.blocks
    ensures var body := RestCode(u.fn.cfg.blocks[b].instructions, u.fn.cfg.blocks[b].terminator,
                                 ctx, Layout(ctx.alloc, b), [], next);
            && body.Ok?
            && BlockCode(u, ctx, b, next).value.code == [Mark(ctx.labels[b]), Do(JUMPDEST)] + body.value.code
            && (BlockCode(u, ctx, b, next).value.whole ==> body.value.whole)
  {
    assert [Mark(ctx.labels[b]), Do(JUMPDEST)] + [] == [Mark(ctx.labels[b]), Do(JUMPDEST)];
  }

  /** Where the label of an inner block lands, and what is behind it. */
  lemma InnerBlockPlace(img: Image, fn: FnId, b: BlockId) returns (j: nat, next: Label)
    requires Good(img) && fn in img.units && b in img.units[fn].fn.cfg.blocks && Known(img, fn)
    requires b != img.units[fn].fn.cfg.entry && b in ContextIn(img, fn).labels
    ensures JumpTarget(img.code, LabelWord(img.code, ContextIn(img, fn).labels[b])) == Some(j)
    ensures j < |img.code| && img.code[j] == Do(JUMPDEST)
    ensures var body := RestCode(img.units[fn].fn.cfg.blocks[b].instructions, img.units[fn].fn.cfg.blocks[b].terminator,
                                 ContextIn(img, fn), Layout(img.units[fn].alloc, b), [], next);
            body.Ok? && body.value.whole && CodeAt(img.code, j + 1, body.value.code)
  {
    hide RestCode, BlockCode, CodeAt, LabelWord, UnitOk;
    var pc;
    GoodFunction(img, fn);
    pc, next := BlockPlace(img, fn, b);
    InnerBlock(img.units[fn], ContextIn(img, fn), b, next);
    var l := ContextIn(img, fn).labels[b];
    var body := RestCode(img.units[fn].fn.cfg.blocks[b].instructions, img.units[fn].fn.cfg.blocks[b].terminator,
                         ContextIn(img, fn), Layout(img.units[fn].alloc, b), [], next).value.code;
    LandingPlace(img.code, pc, l, body);
    GoodCode(img);
    j := pc + 1;
    LabelLands(img.code, l, pc, j);
  }

  lemma LandingPlace(code: seq<Asm>, pc: nat, l: Label, body: seq<Asm>)
    requires CodeAt(code, pc, [Mark(l), Do(JUMPDEST)] + body)
    ensures pc + 1 < |code| && code[pc] == Mark(l) && code[pc + 1] == Do(JUMPDEST)
    ensures CodeAt(code, pc + 2, body)
  {
    CodeAtSplit(code, pc, [Mark(l), Do(JUMPDEST)], body);
    CodeAtHead(code, pc, [Mark(l), Do(JUMPDEST)]);
    CodeAtHead(code, pc + 1, [Mark(l), Do(JUMPDEST)][1..]);
  }

  /** Jumping to an inner block with its live-in slots at home makes its body the running code. */
  lemma BlockDoor(img: Image, fn: FnId, b: BlockId, regs: Regs, memory: map<nat, Word>) returns (j: nat, a: Act)
    requires Good(img) && fn in img.units && b in img.units[fn].fn.cfg.blocks && Known(img, fn)
    requires b in img.live[fn].liveIn && b in img.live[fn].liveOut
    requires b != img.units[fn].fn.cfg.entry && b in ContextIn(img, fn).labels
    requires ReadyFor(img, fn, b, regs, memory)
    ensures JumpTarget(img.code, LabelWord(img.code, ContextIn(img, fn).labels[b])) == Some(j)
    ensures j < |img.code| && img.code[j] == Do(JUMPDEST) && a.pc == j + 1
    ensures a.frame == Frame(fn, b, 0, regs)
    ensures TopOk(img, a, memory) && Cur(img, a) == Layout(img.units[fn].alloc, b)
  {
    var next;
    j, next := InnerBlockPlace(img, fn, b);
    a := Act(Frame(fn, b, 0, regs), [], next, j + 1);
    BodyTop(img, fn, b, next, j + 1, regs, memory);
  }

  lemma ThenLand(code: seq<Asm>, m: Machine, n: nat, j: nat, s: Local) returns (k: nat)
    requires Reaches(code, m, n, Machine(j, s))
    requires j < |code| && code[j] == Do(JUMPDEST)
    ensures k > 0 && Reaches(code, m, k, Machine(j + 1, s))
  {
    LandingReaches(code, j, s);
    k := n + 1;
    Chain(code, m, n, Machine(j, s), 1, Machine(j + 1, s));
  }

  // ---------------------------------------------------------------------------
  // Edges
  // ---------------------------------------------------------------------------

  /** A jump target is an inner block whose live-in slots are live at the end of the jumping block. */
  lemma EdgeFacts(img: Image, a: Act, t: BlockId)
    requires Good(img) && Located(img, a)
    requires t in TerminatorTargets(BlockOf(img, a).terminator)
    ensures Known(img, a.frame.fn)
    ensures t in img.units[a.frame.fn].fn.cfg.blocks && t != img.units[a.frame.fn].fn.cfg.entry
    ensures t in img.live[a.frame.fn].liveIn && t in img.live[a.frame.fn].liveOut
    ensures img.live[a.frame.fn].liveIn[t] <= img.live[a.frame.fn].liveOut[a.frame.block]
  {
    UnitKnown(img, a.frame.fn);
    var fn, cfg := a.frame.fn, img.units[a.frame.fn].fn.cfg;
    UnitOrder(img, fn);
    InnerTarget(img.units[fn], a.frame.block, t);
    UnitEquations(img, fn, a.frame.block);
  }

  lemma UnitOrder(img: Image, fn: FnId)
    requires Good(img) && fn in img.units
    ensures OrderOk(img.units[fn])
  {
    GoodFunction(img, fn);
  }

  lemma UnitEquations(img: Image, fn: FnId, b: BlockId)
    requires Good(img) && fn in img.units && b in img.units[fn].fn.cfg.blocks
    requires Known(img, fn) && b in img.live[fn].liveIn && b in img.live[fn].liveOut
    ensures EquationsAt(img.units[fn].fn.cfg, img.live[fn], b)
  {
    GoodFunction(img, fn);
  }

  lemma InnerTarget(u: Unit, b: BlockId, t: BlockId)
    requires OrderOk(u) && b in u.fn.cfg.blocks && t in TerminatorTargets(u.fn.cfg.blocks[b].terminator)
    ensures t in u.fn.cfg.blocks && t != u.fn.cfg.entry && t in u.fn.cfg.blocks[b].successors
  {
    assert t in u.fn.cfg.blocks[b].successors;
    assert b in u.fn.cfg.blocks[t].predecessors;
  }

  /** Live-in slots of a successor are at home at the end of the block, so its layout can be built. */
  lemma EdgeHomes(img: Image, a: Act, t: BlockId, memory: map<nat, Word>)
    requires Good(img) && Located(img, a)
    requires t in TerminatorTargets(BlockOf(img, a).terminator)
    requires AllHome(LiveAt(img, a, |BlockOf(img, a).instructions|), img, a, memory)
    ensures Known(img, a.frame.fn) && t in img.live[a.frame.fn].liveIn
    ensures LayoutFindable(Layout(AllocOf(img, a), t), Cur(img, a), a.frame.regs, img.units[a.frame.fn].base, memory)
    ensures ReadyFor(img, a.frame.fn, t, a.frame.regs, memory)
  {
    EdgeFacts(img, a, t);
    LiveAtEnd(img, a);
    BlockLayout(img, a.frame.fn, t);
    var alloc, base, cur, regs := AllocOf(img, a), img.units[a.frame.fn].base, Cur(img, a), a.frame.regs;
    forall x | x in img.live[a.frame.fn].liveIn[t]
      ensures AtHome(x, alloc, base, cur, regs, memory) && AtHome(x, alloc, base, Layout(alloc, t), regs, memory)
    {
      assert x in LiveAt(img, a, |BlockOf(img, a).instructions|);
      assert AtHome(x, alloc, base, cur, regs, memory);
    }
    forall x | x in Layout(alloc, t) ensures Findable(x, cur, regs, base, memory) {
      assert x in img.live[a.frame.fn].liveIn[t];
      HomeIsFindable(x, alloc, base, cur, regs, memory);
    }
  }

  lemma TerminatorFound(img: Image, a: Act, o: Operand, memory: map<nat, Word>)
    requires Located(img, a)
    requires o in TerminatorOperands(BlockOf(img, a).terminator) && o.Location?
    requires AllHome(LiveAt(img, a, |BlockOf(img, a).instructions|), img, a, memory)
    ensures Findable(o.slot, Cur(img, a), a.frame.regs, img.units[a.frame.fn].base, memory)
  {
    LiveAtEnd(img, a);
    OperandFindable(o, TerminatorOperands(BlockOf(img, a).terminator));
    assert o.slot in LiveAt(img, a, |BlockOf(img, a).instructions|);
    HomeIsFindable(o.slot, AllocOf(img, a), img.units[a.frame.fn].base, Cur(img, a), a.frame.regs, memory);
  }

  /** At the end of its block an activation is about to run the terminator's code. */
  lemma TerminatorNext(img: Image, a: Act, memory: map<nat, Word>) returns (e: Emitted)
    requires TopOk(img, a, memory) && a.frame.index == |BlockOf(img, a).instructions|
    ensures TerminatorCode(BlockOf(img, a).terminator, ContextIn(img, a.frame.fn), EntryOf(img, a), a.blockStack)
        == Ok(e)
    ensures e.whole && CodeAt(img.code, a.pc, e.code)
  {
    TopOpen(img, a, memory);
    e := TerminatorCode(BlockOf(img, a).terminator, ContextIn(img, a.frame.fn), EntryOf(img, a), a.blockStack).value;
  }

  /** Following a jump. */
  lemma JumpSim(img: Image, a: Act, rest: seq<Word>, s: Local) returns (a': Act, s': Local, n: nat)
    requires Good(img) && TopOk(img, a, s.memory)
    requires a.frame.index == |BlockOf(img, a).instructions| && BlockOf(img, a).terminator.Jump?
    requires s.stack == RegValues(Cur(img, a), a.frame.regs) + rest
    ensures a'.frame == a.frame.(block := BlockOf(img, a).terminator.target, index := 0)
    ensures n > 0 && Reaches(img.code, Machine(a.pc, s), n, Machine(a'.pc, s'))
    ensures TopOk(img, a', s'.memory)
    ensures s' == s.(stack := RegValues(Cur(img, a'), a'.frame.regs) + rest)
  {
    var t := BlockOf(img, a).terminator.target;
    TopHomes(img, a, s.memory);
    TargetLabelled(img, a, t, s.memory);
    var j;
    j, a' := EdgeDoor(img, a, t, s.memory);
    s' := s.(stack := RegValues(Cur(img, a'), a.frame.regs) + rest);
    n := JumpOut(img, a, t, j, rest, s);
    n := ThenLand(img.code, Machine(a.pc, s), n, j, s');
  }

  /** Code was generated for the terminator, so its targets have labels. */
  lemma TargetLabelled(img: Image, a: Act, t: BlockId, memory: map<nat, Word>)
    requires TopOk(img, a, memory) && a.frame.index == |BlockOf(img, a).instructions|
    requires t in TerminatorTargets(BlockOf(img, a).terminator)
    ensures t in ContextIn(img, a.frame.fn).labels
  {
    var e := TerminatorNext(img, a, memory);
  }

  lemma JumpOut(img: Image, a: Act, t: BlockId, j: nat, rest: seq<Word>, s: Local) returns (n: nat)
    requires TopOk(img, a, s.memory) && a.frame.index == |BlockOf(img, a).instructions|
    requires BlockOf(img, a).terminator == Jump(t) && t in ContextIn(img, a.frame.fn).labels
    requires JumpTarget(img.code, LabelWord(img.code, ContextIn(img, a.frame.fn).labels[t])) == Some(j)
    requires s.stack == RegValues(Cur(img, a), a.frame.regs) + rest
    requires LayoutFindable(Layout(AllocOf(img, a), t), Cur(img, a), a.frame.regs, img.units[a.frame.fn].base, s.memory)
    ensures Reaches(img.code, Machine(a.pc, s), n,
                    Machine(j, s.(stack := RegValues(Layout(AllocOf(img, a), t), a.frame.regs) + rest)))
  {
    var e := TerminatorNext(img, a, s.memory);
    var target, base := Layout(AllocOf(img, a), t), img.units[a.frame.fn].base;
    n := JumpMachine(img.code, a.pc, Cur(img, a), target, base, ShuffleCode(Cur(img, a), target, base).value,
                     ContextIn(img, a.frame.fn).labels[t], j, a.frame.regs, rest, s);
  }

  /** The block at the other end of an edge: its label's place and its layout. */
  lemma EdgeDoor(img: Image, a: Act, t: BlockId, memory: map<nat, Word>) returns (j: nat, a': Act)
    requires Good(img) && Located(img, a)
    requires t in TerminatorTargets(BlockOf(img, a).terminator)
    requires t in ContextIn(img, a.frame.fn).labels
    requires AllHome(LiveAt(img, a, |BlockOf(img, a).instructions|), img, a, memory)
    ensures LayoutFindable(Layout(AllocOf(img, a), t), Cur(img, a), a.frame.regs, img.units[a.frame.fn].base, memory)
    ensures JumpTarget(img.code, LabelWord(img.code, ContextIn(img, a.frame.fn).labels[t])) == Some(j)
    ensures j < |img.code| && img.code[j] == Do(JUMPDEST) && a'.pc == j + 1
    ensures a'.frame == a.frame.(block := t, index := 0)
    ensures TopOk(img, a', memory) && Cur(img, a') == Layout(AllocOf(img, a), t)
  {
    EdgeFacts(img, a, t);
    EdgeHomes(img, a, t, memory);
    j, a' := BlockDoor(img, a.frame.fn, t, a.frame.regs, memory);
  }

  /** The else-layout of a branch is found in its then-layout or in memory. */
  lemma ElseFound(img: Image, a: Act, t: BlockId, f: BlockId, o: Operand, memory: map<nat, Word>)
    requires Good(img) && Located(img, a) && BlockOf(img, a).terminator == Branch(o, t, f)
    requires CopiesValid(img, a.frame.fn, a.frame.regs, memory)
    ensures LayoutFindable(Layout(AllocOf(img, a), f), Layout(AllocOf(img, a), t), a.frame.regs,
                           img.units[a.frame.fn].base, memory)
  {
    GoodFunction(img, a.frame.fn);
    assert ElseCoveredAt(img.units[a.frame.fn], a.frame.block);
  }

  /** Following a branch. */
  lemma BranchSim(img: Image, a: Act, rest: seq<Word>, s: Local) returns (a': Act, s': Local, n: nat)
    requires Good(img) && TopOk(img, a, s.memory)
    requires a.frame.index == |BlockOf(img, a).instructions| && BlockOf(img, a).terminator.Branch?
    requires s.stack == RegValues(Cur(img, a), a.frame.regs) + rest
    ensures var t := BlockOf(img, a).terminator;
            var taken := OperandValue(a.frame.regs, t.condition) != 0;
            a'.frame == a.frame.(block := if taken then t.thenBlock else t.elseBlock, index := 0)
    ensures n > 0 && Reaches(img.code, Machine(a.pc, s), n, Machine(a'.pc, s'))
    ensures TopOk(img, a', s'.memory)
    ensures s' == s.(stack := RegValues(Cur(img, a'), a'.frame.regs) + rest)
  {
    var o, t, f := BlockOf(img, a).terminator.condition, BlockOf(img, a).terminator.thenBlock,
        BlockOf(img, a).terminator.elseBlock;
    TopHomes(img, a, s.memory);
    TargetLabelled(img, a, t, s.memory);
    TargetLabelled(img, a, f, s.memory);
    ElseFound(img, a, t, f, o, s.memory);
    if o.Location? {
      TerminatorFound(img, a, o, s.memory);
    }
    var jThen, aThen := EdgeDoor(img, a, t, s.memory);
    var jElse, aElse := EdgeDoor(img, a, f, s.memory);
    n := BranchFrom(img, a, o, t, f, jThen, jElse, rest, s);
    if OperandValue(a.frame.regs, o) != 0 {
      a', s' := aThen, s.(stack := RegValues(Cur(img, aThen), a.frame.regs) + rest);
      n := ThenLand(img.code, Machine(a.pc, s), n, jThen, s');
    } else {
      a', s' := aElse, s.(stack := RegValues(Cur(img, aElse), a.frame.regs) + rest);
      n := ThenLand(img.code, Machine(a.pc, s), n, jElse, s');
    }
  }

  lemma BranchFrom(
      img: Image, a: Act, o: Operand, t: BlockId, f: BlockId, jThen: nat, jElse: nat, rest: seq<Word>, s: Local)
    returns (n: nat)
    requires TopOk(img, a, s.memory) && a.frame.index == |BlockOf(img, a).instructions|
    requires BlockOf(img, a).terminator == Branch(o, t, f)
    requires t in ContextIn(img, a.frame.fn).labels && f in ContextIn(img, a.frame.fn).labels
    requires JumpTarget(img.code, LabelWord(img.code, ContextIn(img, a.frame.fn).labels[t])) == Some(jThen)
    requires JumpTarget(img.code, LabelWord(img.code, ContextIn(img, a.frame.fn).labels[f])) == Some(jElse)
    requires s.stack == RegValues(Cur(img, a), a.frame.regs) + rest
    requires LayoutFindable(Layout(AllocOf(img, a), t), Cur(img, a), a.frame.regs, img.units[a.frame.fn].base, s.memory)
    requires LayoutFindable(Layout(AllocOf(img, a), f), Layout(AllocOf(img, a), t), a.frame.regs,
                            img.units[a.frame.fn].base, s.memory)
    requires o.Location? ==> Findable(o.slot, Cur(img, a), a.frame.regs, img.units[a.frame.fn].base, s.memory)
    ensures OperandValue(a.frame.regs, o) != 0 ==>
              Reaches(img.code, Machine(a.pc, s), n,
                      Machine(jThen, s.(stack := RegValues(Layout(AllocOf(img, a), t), a.frame.regs) + rest)))
    ensures OperandValue(a.frame.regs, o) == 0 ==>
              Reaches(img.code, Machine(a.pc, s), n,
                      Machine(jElse, s.(stack := RegValues(Layout(AllocOf(img, a), f), a.frame.regs) + rest)))
  {
    var e := TerminatorNext(img, a, s.memory);
    n := BranchOut(img.code, a.pc, o, t, f, ContextIn(img, a.frame.fn), EntryOf(img, a), a.blockStack,
                   e, jThen, jElse, a.frame.regs, rest, s);
  }

  lemma BranchOut(
      code: seq<Asm>, pc: nat, o: Operand, t: BlockId, f: BlockId, ctx: Context, entry: seq<Slot>, bs: seq<Slot>,
      e: Emitted, jThen: nat, jElse: nat, regs: Regs, rest: seq<Word>, s: Local)
    returns (n: nat)
    requires TerminatorCode(Branch(o, t, f), ctx, entry, bs) == Ok(e) && e.whole
    requires CodeAt(code, pc, e.code)
    requires JumpTarget(code, LabelWord(code, ctx.labels[t])) == Some(jThen)
    requires JumpTarget(code, LabelWord(code, ctx.labels[f])) == Some(jElse)
    requires s.stack == RegValues(bs + entry, regs) + rest
    requires LayoutFindable(Layout(ctx.alloc, t), bs + entry, regs, ctx.base, s.memory)
    requires LayoutFindable(Layout(ctx.alloc, f), Layout(ctx.alloc, t), regs, ctx.base, s.memory)
    requires o.Location? ==> Findable(o.slot, bs + entry, regs, ctx.base, s.memory)
    ensures OperandValue(regs, o) != 0 ==>
              Reaches(code, Machine(pc, s), n, Machine(jThen,
                  s.(stack := RegValues(Layout(ctx.alloc, t), regs) + rest)))
    ensures OperandValue(regs, o) == 0 ==>
              Reaches(code, Machine(pc, s), n, Machine(jElse,
                  s.(stack := RegValues(Layout(ctx.alloc, f), regs) + rest)))
  {
    var test := ConditionCode(o, bs + entry, Layout(ctx.alloc, t), ctx.base).value;
    var move := ShuffleCode(Layout(ctx.alloc, t), Layout(ctx.alloc, f), ctx.base).value;
    n := BranchMachine(code, pc, o, bs + entry, Layout(ctx.alloc, t), Layout(ctx.alloc, f), ctx.base, test, move,
                       ctx.labels[t], ctx.labels[f], jThen, jElse, regs, rest, s);
  }
}
