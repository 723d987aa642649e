/** Dead-instruction elimination preserves the meaning of whole programs. */
module DeadCodeMeaning {
  import opened Wrappers
  import opened Words
  import opened Lowered
  import opened Semantics
  import opened DeadCode

  /** Every function of q is the one of p with dead instructions removed. */
  ghost predicate Optimized(p: Program, q: Program) {
    p.Keys == q.Keys &&
    forall fn :: fn in p ==> q[fn] == p[fn].(cfg := q[fn].cfg) && Reduced(p[fn].cfg, q[fn].cfg)
  }

  /** The registers hold the same values in all slots that are still read. */
  ghost predicate AgreeOn(used: set<Slot>, a: Regs, b: Regs) {
    forall s :: s in used ==> Read(a, s) == Read(b, s)
  }

  /** The same place in both programs: what is left of the block differs by dead instructions. */
  ghost predicate SamePlace(a: Block, b: Block, i: nat, j: nat, used: set<Slot>) {
    i <= |a.instructions| && j <= |b.instructions| && Dropped(a.instructions[i..], b.instructions[j..], used)
  }

  ghost predicate FrameMatch(p: Program, q: Program, f: Frame, g: Frame) {
    && f.fn == g.fn && f.block == g.block
    && (f.fn in p && f.fn in q && f.block in p[f.fn].cfg.blocks && f.block in q[f.fn].cfg.blocks ==>
          && AgreeOn(UsedSlots(q[f.fn].cfg), f.regs, g.regs)
          && SamePlace(p[f.fn].cfg.blocks[f.block], q[f.fn].cfg.blocks[f.block], f.index, g.index,
              UsedSlots(q[f.fn].cfg)))
  }

  /** The activation waits at a call, and the other program's at the same call. */
  ghost predicate WaitsAlike(p: Program, q: Program, f: Frame, g: Frame) {
    && FrameMatch(p, q, f, g) && CallAt(p, f).Some? && CallAt(q, g) == CallAt(p, f)
    && f.fn in p && f.fn in q && f.block in p[f.fn].cfg.blocks && f.block in q[f.fn].cfg.blocks
    && f.index < |p[f.fn].cfg.blocks[f.block].instructions| && g.index < |q[f.fn].cfg.blocks[f.block].instructions|
    && Dropped(p[f.fn].cfg.blocks[f.block].instructions[f.index + 1..],
               q[f.fn].cfg.blocks[f.block].instructions[g.index + 1..], UsedSlots(q[f.fn].cfg))
  }

  ghost predicate FramesMatch(p: Program, q: Program, fs: seq<Frame>, gs: seq<Frame>) {
    && |fs| == |gs| && fs != [] && FrameMatch(p, q, fs[0], gs[0])
    && forall i :: 0 < i < |fs| ==> WaitsAlike(p, q, fs[i], gs[i])
  }

  /** Same storage and same stack of activations, or the same end. */
  ghost predicate ConfigsMatch(p: Program, q: Program, c: Config, d: Config) {
    match c
    case Running(fs, storage) => d.Running? && d.storage == storage && FramesMatch(p, q, fs, d.frames)
    case _ => d == c
  }

  // ---------------------------------------------------------------------------
  // Instructions
  // ---------------------------------------------------------------------------

  lemma UsesAt(cfg: Cfg, b: BlockId, j: nat)
    requires b in cfg.blocks && j < |cfg.blocks[b].instructions|
    ensures Uses(cfg.blocks[b].instructions[j]) <= UsedSlots(cfg)
  {
    hide Uses, TerminatorUses;
    forall s | s in Uses(cfg.blocks[b].instructions[j]) ensures s in UsedSlots(cfg) {
      assert s in BlockUses(cfg.blocks[b]);
    }
  }

  lemma ValuesAgree(os: seq<Operand>, used: set<Slot>, a: Regs, b: Regs)
    requires AgreeOn(used, a, b) && SlotsOf(os) <= used
    ensures forall i :: 0 <= i < |os| ==> OperandValue(a, os[i]) == OperandValue(b, os[i])
    ensures OperandValues(a, os) == OperandValues(b, os)
  {
    hide Read;
    forall i | 0 <= i < |os| ensures OperandValue(a, os[i]) == OperandValue(b, os[i]) {
      if os[i].Location? {
        assert os[i].slot in SlotsOf(os);
      }
    }
  }

  lemma ExecuteAgrees(inst: Instruction, used: set<Slot>, a: Regs, b: Regs, storage: map<Word, Word>)
    requires AgreeOn(used, a, b) && Uses(inst) <= used && !inst.Call?
    ensures AgreeOn(used, ExecuteRegs(inst, a, storage), ExecuteRegs(inst, b, storage))
    ensures ExecuteStorage(inst, a, storage) == ExecuteStorage(inst, b, storage)
  {
    hide BinaryValue, UnaryValue, OperandValue, ConstantWord;
    ValuesAgree(Operands(inst), used, a, b);
    var os := Operands(inst);
    assert forall i :: 0 <= i < |os| ==> OperandValue(a, os[i]) == OperandValue(b, os[i]);
    match inst
    case BinaryOp(_, _, l, r) => assert os[0] == l && os[1] == r;
    case UnaryOp(_, _, o) => assert os[0] == o;
    case StorageStore(_, o) => assert os[0] == o;
    case Copy(_, o) => assert os[0] == o;
    case _ =>
  }

  lemma DeadChangesNothing(inst: Instruction, used: set<Slot>, a: Regs, b: Regs, storage: map<Word, Word>)
    requires AgreeOn(used, a, b) && Dead(inst, used)
    ensures !inst.Call? && AgreeOn(used, ExecuteRegs(inst, a, storage), b)
        && ExecuteStorage(inst, a, storage) == storage
  {
    hide BinaryValue, UnaryValue, OperandValue, ConstantWord;
  }

  // ---------------------------------------------------------------------------
  // Steps
  // ---------------------------------------------------------------------------

  lemma MatchBlock(p: Program, q: Program, fn: FnId, b: BlockId)
    requires Optimized(p, q) && fn in p && b in p[fn].cfg.blocks
    ensures fn in q && b in q[fn].cfg.blocks
    ensures q[fn].cfg.blocks[b].terminator == p[fn].cfg.blocks[b].terminator
    ensures q[fn].parameters == p[fn].parameters && q[fn].cfg.entry == p[fn].cfg.entry
    ensures q[fn].cfg.blocks.Keys == p[fn].cfg.blocks.Keys && q.Keys == p.Keys
    ensures Dropped(p[fn].cfg.blocks[b].instructions, q[fn].cfg.blocks[b].instructions, UsedSlots(q[fn].cfg))
  {
    hide UsedSlots, Dropped;
    assert ReducedAt(p[fn].cfg.blocks[b], q[fn].cfg.blocks[b], UsedSlots(q[fn].cfg));
  }

  /** Entering a block, in both programs. */
  lemma EnterMatches(p: Program, q: Program, f: Frame, g: Frame, target: BlockId)
    requires Optimized(p, q) && f.fn == g.fn && f.fn in p && f.fn in q
    requires AgreeOn(UsedSlots(q[f.fn].cfg), f.regs, g.regs)
    ensures FrameMatch(p, q, f.(block := target, index := 0), g.(block := target, index := 0))
  {
    hide UsedSlots, AgreeOn, Dropped, Reduced;
    if target in p[f.fn].cfg.blocks && target in q[f.fn].cfg.blocks {
      MatchBlock(p, q, f.fn, target);
      var a, b := p[f.fn].cfg.blocks[target].instructions, q[f.fn].cfg.blocks[target].instructions;
      assert a[0..] == a && b[0..] == b;
    }
  }

  /** How the next instruction compares: it is dead, or both programs have it next. */
  lemma NextInstruction(a: Block, b: Block, i: nat, j: nat, used: set<Slot>)
    requires SamePlace(a, b, i, j, used) && i < |a.instructions|
    ensures || (j < |b.instructions| && b.instructions[j] == a.instructions[i]
                && Dropped(a.instructions[i + 1..], b.instructions[j + 1..], used))
            || (Dead(a.instructions[i], used) && Dropped(a.instructions[i + 1..], b.instructions[j..], used))
  {
    hide Dead;
    assert a.instructions[i..][1..] == a.instructions[i + 1..];
    if j < |b.instructions| {
      assert b.instructions[j..][1..] == b.instructions[j + 1..];
    }
  }

  lemma AtTheEnd(a: Block, b: Block, j: nat, used: set<Slot>)
    requires SamePlace(a, b, |a.instructions|, j, used)
    ensures j == |b.instructions|
  {
  }

  lemma TopFrame(p: Program, q: Program, fs: seq<Frame>, gs: seq<Frame>, f: Frame, g: Frame)
    requires FramesMatch(p, q, fs, gs) && FrameMatch(p, q, f, g)
    ensures FramesMatch(p, q, [f] + fs[1..], [g] + gs[1..])
  {
    hide FrameMatch, WaitsAlike;
  }

  /** How many instructions the running block still has in front of its terminator. */
  function Ahead(p: Program, c: Config): nat {
    if c.Running? && c.frames != [] && c.frames[0].fn in p && c.frames[0].block in p[c.frames[0].fn].cfg.blocks then
      var insts := p[c.frames[0].fn].cfg.blocks[c.frames[0].block].instructions;
      if c.frames[0].index <= |insts| then |insts| - c.frames[0].index else 0
    else 0
  }

  ghost predicate BlocksAtMost(p: Program, longest: nat) {
    forall fn, b {:trigger p[fn].cfg.blocks[b]} ::
      fn in p && b in p[fn].cfg.blocks ==> |p[fn].cfg.blocks[b].instructions| <= longest
  }

  lemma AheadAtMost(p: Program, c: Config, longest: nat)
    requires BlocksAtMost(p, longest)
    ensures Ahead(p, c) <= longest
  {
  }

  /** One source step is matched by one step, or by none if the instruction was removed. */
  lemma StepMatches(p: Program, q: Program, c: Config, d: Config) returns (k: nat)
    requires Optimized(p, q) && c.Running? && ConfigsMatch(p, q, c, d)
    ensures k <= 1
    ensures ConfigsMatch(p, q, SourceStep(p, c), if k == 0 then d else SourceStep(q, d))
    ensures k == 0 ==> Ahead(p, c) == Ahead(p, SourceStep(p, c)) + 1
  {
    hide FrameMatch, WaitsAlike, StepInstruction, StepTerminator, Reduced, SamePlace, AgreeOn, UsedSlots;
    var fs, gs := c.frames, d.frames;
    var f, g := fs[0], gs[0];
    SameFrame(p, q, f, g);
    k := 1;
    if f.fn in p && f.block in p[f.fn].cfg.blocks {
      MatchBlock(p, q, f.fn, f.block);
      OpenFrame(p, q, f, g);
      var a, b, used := p[f.fn].cfg.blocks[f.block], q[f.fn].cfg.blocks[f.block], UsedSlots(q[f.fn].cfg);
      PlaceBounds(a, b, f.index, g.index, used);
      if f.index < |a.instructions| {
        NextInstruction(a, b, f.index, g.index, used);
        if g.index < |b.instructions| && b.instructions[g.index] == a.instructions[f.index]
           && Dropped(a.instructions[f.index + 1..], b.instructions[g.index + 1..], used) {
          SameInstruction(p, q, fs, gs, c.storage);
        } else {
          k := 0;
          RemovedInstruction(p, q, fs, gs, c.storage);
        }
      } else {
        AtTheEnd(a, b, g.index, used);
        SameTerminator(p, q, fs, gs, c.storage);
      }
    } else {
      MissingBlockTraps(p, q, f);
    }
  }

  lemma MissingBlockTraps(p: Program, q: Program, f: Frame)
    requires Optimized(p, q) && !(f.fn in p && f.block in p[f.fn].cfg.blocks)
    ensures !(f.fn in q && f.block in q[f.fn].cfg.blocks)
  {
    hide UsedSlots;
  }

  lemma SameFrame(p: Program, q: Program, f: Frame, g: Frame)
    requires FrameMatch(p, q, f, g)
    ensures f.fn == g.fn && f.block == g.block
  {
    hide UsedSlots, SamePlace;
  }

  lemma OpenFrame(p: Program, q: Program, f: Frame, g: Frame)
    requires FrameMatch(p, q, f, g) && f.fn in p && f.fn in q && f.block in p[f.fn].cfg.blocks
        && f.block in q[f.fn].cfg.blocks
    ensures AgreeOn(UsedSlots(q[f.fn].cfg), f.regs, g.regs)
    ensures SamePlace(p[f.fn].cfg.blocks[f.block], q[f.fn].cfg.blocks[f.block], f.index, g.index,
        UsedSlots(q[f.fn].cfg))
  {
    hide UsedSlots, SamePlace, AgreeOn;
  }

  lemma PlaceBounds(a: Block, b: Block, i: nat, j: nat, used: set<Slot>)
    requires SamePlace(a, b, i, j, used)
    ensures i <= |a.instructions| && j <= |b.instructions|
  {
  }

  /** The top activations of both programs stand in the same block. */
  ghost predicate TopsAt(p: Program, q: Program, fs: seq<Frame>, gs: seq<Frame>) {
    && Optimized(p, q) && FramesMatch(p, q, fs, gs)
    && fs[0].fn in p && fs[0].fn in q && fs[0].fn == gs[0].fn && fs[0].block == gs[0].block
    && fs[0].block in p[fs[0].fn].cfg.blocks && fs[0].block in q[fs[0].fn].cfg.blocks
    && AgreeOn(UsedSlots(q[fs[0].fn].cfg), fs[0].regs, gs[0].regs)
    && fs[0].index <= |p[fs[0].fn].cfg.blocks[fs[0].block].instructions|
    && gs[0].index <= |q[fs[0].fn].cfg.blocks[fs[0].block].instructions|
  }

  function InstructionsOf(p: Program, f: Frame): seq<Instruction>
    requires f.fn in p && f.block in p[f.fn].cfg.blocks
  {
    p[f.fn].cfg.blocks[f.block].instructions
  }

  lemma RemovedInstruction(p: Program, q: Program, fs: seq<Frame>, gs: seq<Frame>, storage: map<Word, Word>)
    requires TopsAt(p, q, fs, gs) && fs[0].index < |InstructionsOf(p, fs[0])|
    requires Dead(InstructionsOf(p, fs[0])[fs[0].index], UsedSlots(q[fs[0].fn].cfg))
    requires Dropped(InstructionsOf(p, fs[0])[fs[0].index + 1..], InstructionsOf(q, gs[0])[gs[0].index..],
        UsedSlots(q[fs[0].fn].cfg))
    ensures ConfigsMatch(p, q, SourceStep(p, Running(fs, storage)), Running(gs, storage))
    ensures Ahead(p, Running(fs, storage)) == Ahead(p, SourceStep(p, Running(fs, storage))) + 1
  {
    hide WaitsAlike, Optimized, UsedSlots, AgreeOn, ExecuteRegs, ExecuteStorage, Dead, Dropped, FramesMatch;
    TopsNotEmpty(p, q, fs, gs);
    var f, g, used := fs[0], gs[0], UsedSlots(q[fs[0].fn].cfg);
    var inst := InstructionsOf(p, f)[f.index];
    DeadChangesNothing(inst, used, f.regs, g.regs, storage);
    var f' := f.(index := f.index + 1, regs := ExecuteRegs(inst, f.regs, storage));
    TopFrame(p, q, fs, gs, f', g);
    assert [g] + gs[1..] == gs;
  }

  lemma TopsNotEmpty(p: Program, q: Program, fs: seq<Frame>, gs: seq<Frame>)
    requires FramesMatch(p, q, fs, gs)
    ensures |fs| == |gs| && fs != []
  {
    hide FrameMatch, WaitsAlike;
  }

  lemma SameInstruction(p: Program, q: Program, fs: seq<Frame>, gs: seq<Frame>, storage: map<Word, Word>)
    requires TopsAt(p, q, fs, gs) && fs[0].index < |InstructionsOf(p, fs[0])|
        && gs[0].index < |InstructionsOf(q, gs[0])|
    requires InstructionsOf(q, gs[0])[gs[0].index] == InstructionsOf(p, fs[0])[fs[0].index]
    requires Dropped(InstructionsOf(p, fs[0])[fs[0].index + 1..], InstructionsOf(q, gs[0])[gs[0].index + 1..],
        UsedSlots(q[fs[0].fn].cfg))
    ensures ConfigsMatch(p, q, SourceStep(p, Running(fs, storage)), SourceStep(q, Running(gs, storage)))
  {
    hide WaitsAlike, Optimized, UsedSlots, AgreeOn, ExecuteRegs, ExecuteStorage, Dropped, FramesMatch, Uses;
    TopsNotEmpty(p, q, fs, gs);
    var f, g, used := fs[0], gs[0], UsedSlots(q[fs[0].fn].cfg);
    var inst := InstructionsOf(p, f)[f.index];
    UsesAt(q[f.fn].cfg, f.block, g.index);
    if inst.Call? {
      SameCall(p, q, fs, gs, storage);
    } else {
      ExecuteAgrees(inst, used, f.regs, g.regs, storage);
      var f' := f.(index := f.index + 1, regs := ExecuteRegs(inst, f.regs, storage));
      var g' := g.(index := g.index + 1, regs := ExecuteRegs(inst, g.regs, storage));
      TopFrame(p, q, fs, gs, f', g');
    }
  }

  lemma SameCall(p: Program, q: Program, fs: seq<Frame>, gs: seq<Frame>, storage: map<Word, Word>)
    requires TopsAt(p, q, fs, gs) && fs[0].index < |InstructionsOf(p, fs[0])|
        && gs[0].index < |InstructionsOf(q, gs[0])|
    requires InstructionsOf(q, gs[0])[gs[0].index] == InstructionsOf(p, fs[0])[fs[0].index]
    requires InstructionsOf(p, fs[0])[fs[0].index].Call?
    requires Uses(InstructionsOf(p, fs[0])[fs[0].index]) <= UsedSlots(q[fs[0].fn].cfg)
    requires Dropped(InstructionsOf(p, fs[0])[fs[0].index + 1..], InstructionsOf(q, gs[0])[gs[0].index + 1..],
        UsedSlots(q[fs[0].fn].cfg))
    ensures ConfigsMatch(p, q, SourceStep(p, Running(fs, storage)), SourceStep(q, Running(gs, storage)))
  {
    hide UsedSlots, AgreeOn, Dropped, Bind, OperandValue, Reduced;
    var f, g := fs[0], gs[0];
    var inst := InstructionsOf(p, f)[f.index];
    ValuesAgree(inst.args, UsedSlots(q[f.fn].cfg), f.regs, g.regs);
    SameSignatures(p, q);
    if !(inst.target.External? || inst.target.fn !in p || |inst.args| != |p[inst.target.fn].parameters|) {
      var h := inst.target.fn;
      var regs := Bind(p[h].parameters, OperandValues(f.regs, inst.args));
      SameRegs(regs, UsedSlots(q[h].cfg));
      var callee := Frame(h, p[h].cfg.entry, 0, regs);
      EnterMatches(p, q, callee, callee, p[h].cfg.entry);
      Pushed(p, q, fs, gs, callee);
    }
  }

  lemma SameSignatures(p: Program, q: Program)
    requires Optimized(p, q)
    ensures p.Keys == q.Keys
    ensures forall h :: h in p ==> q[h].parameters == p[h].parameters && q[h].cfg.entry == p[h].cfg.entry
  {
    hide UsedSlots;
    forall h | h in p ensures q[h].parameters == p[h].parameters && q[h].cfg.entry == p[h].cfg.entry {
      assert q[h] == p[h].(cfg := q[h].cfg);
    }
  }

  lemma SameRegs(regs: Regs, used: set<Slot>)
    ensures AgreeOn(used, regs, regs)
  {
  }

  lemma Pushed(p: Program, q: Program, fs: seq<Frame>, gs: seq<Frame>, callee: Frame)
    requires TopsAt(p, q, fs, gs) && fs[0].index < |InstructionsOf(p, fs[0])|
        && gs[0].index < |InstructionsOf(q, gs[0])|
    requires InstructionsOf(q, gs[0])[gs[0].index] == InstructionsOf(p, fs[0])[fs[0].index]
    requires InstructionsOf(p, fs[0])[fs[0].index].Call?
    requires Dropped(InstructionsOf(p, fs[0])[fs[0].index + 1..], InstructionsOf(q, gs[0])[gs[0].index + 1..],
        UsedSlots(q[fs[0].fn].cfg))
    requires FrameMatch(p, q, callee, callee)
    ensures FramesMatch(p, q, [callee] + fs, [callee] + gs)
  {
    hide UsedSlots, AgreeOn, Dropped, SamePlace, FrameMatch, Optimized;
    assert WaitsAlike(p, q, fs[0], gs[0]);
    forall i | 0 < i < |[callee] + fs| ensures WaitsAlike(p, q, ([callee] + fs)[i], ([callee] + gs)[i]) {
      assert ([callee] + fs)[i] == fs[i - 1] && ([callee] + gs)[i] == gs[i - 1];
    }
  }

  lemma SameTerminator(p: Program, q: Program, fs: seq<Frame>, gs: seq<Frame>, storage: map<Word, Word>)
    requires TopsAt(p, q, fs, gs) && fs[0].index == |InstructionsOf(p, fs[0])|
        && gs[0].index == |InstructionsOf(q, gs[0])|
    ensures ConfigsMatch(p, q, SourceStep(p, Running(fs, storage)), SourceStep(q, Running(gs, storage)))
  {
    hide UsedSlots, AgreeOn, FramesMatch, FrameMatch, Optimized, OperandValue, TerminatorUses, CallAt, Resume;
    TopsNotEmpty(p, q, fs, gs);
    var f, g, used := fs[0], gs[0], UsedSlots(q[fs[0].fn].cfg);
    var t := p[f.fn].cfg.blocks[f.block].terminator;
    MatchBlock(p, q, f.fn, f.block);
    TerminatorAgrees(q[f.fn].cfg, f.block, f.regs, g.regs);
    match t
    case Jump(target) =>
      EnterMatches(p, q, f, g, target);
      TopFrame(p, q, fs, gs, f.(block := target, index := 0), g.(block := target, index := 0));
    case Branch(condition, thenBlock, elseBlock) =>
      assert TerminatorOperands(t)[0] == condition;
      var target := if OperandValue(f.regs, condition) != 0 then thenBlock else elseBlock;
      EnterMatches(p, q, f, g, target);
      TopFrame(p, q, fs, gs, f.(block := target, index := 0), g.(block := target, index := 0));
    case Return(v) =>
      if v.Some? {
        assert TerminatorOperands(t)[0] == v.value;
      }
      var value := match v { case Some(o) => Some(OperandValue(f.regs, o)) case None => None };
      SameReturn(p, q, fs, gs, storage, value);
    case Unreachable =>
  }

  lemma TerminatorAgrees(cfg: Cfg, b: BlockId, x: Regs, y: Regs)
    requires b in cfg.blocks && AgreeOn(UsedSlots(cfg), x, y)
    ensures forall i :: 0 <= i < |TerminatorOperands(cfg.blocks[b].terminator)| ==>
              OperandValue(x, TerminatorOperands(cfg.blocks[b].terminator)[i]) ==
              OperandValue(y, TerminatorOperands(cfg.blocks[b].terminator)[i])
  {
    hide UsedSlots, SlotsOf, OperandValue, UsesOf;
    UsedInBlock(cfg, b);
    ValuesAgree(TerminatorOperands(cfg.blocks[b].terminator), UsedSlots(cfg), x, y);
  }

  /** What a return does, given the value. */
  function AfterReturn(p: Program, fs: seq<Frame>, storage: map<Word, Word>, value: Option<Word>): Config
    requires fs != []
  {
    if |fs| == 1 then Returned(value, storage)
    else
      match CallAt(p, fs[1])
      case Some(result) => Running([Resume(fs[1], result, value)] + fs[2..], storage)
      case None => Trapped
  }

  lemma SameReturn(
      p: Program, q: Program, fs: seq<Frame>, gs: seq<Frame>, storage: map<Word, Word>, value: Option<Word>)
    requires FramesMatch(p, q, fs, gs)
    ensures ConfigsMatch(p, q, AfterReturn(p, fs, storage, value), AfterReturn(q, gs, storage, value))
  {
    if |fs| > 1 {
      assert WaitsAlike(p, q, fs[1], gs[1]);
      var result := CallAt(p, fs[1]).value;
      ResumeMatches(p, q, fs[1], gs[1], result, value);
      hide FrameMatch, WaitsAlike, Resume;
      var fs', gs' := [Resume(fs[1], result, value)] + fs[2..], [Resume(gs[1], result, value)] + gs[2..];
      forall i | 0 < i < |fs'| ensures WaitsAlike(p, q, fs'[i], gs'[i]) {
        assert fs'[i] == fs[i + 1] && gs'[i] == gs[i + 1];
      }
    }
  }

  lemma ResumeMatches(p: Program, q: Program, f: Frame, g: Frame, result: Option<Slot>, value: Option<Word>)
    requires WaitsAlike(p, q, f, g)
    ensures FrameMatch(p, q, Resume(f, result, value), Resume(g, result, value))
  {
    hide UsedSlots, Dropped;
  }

  /**
   * Whatever the original program does in n steps, the optimized one does in at most
   * n: it is at the same place in every activation with the same storage, or it has
   * returned the same value with the same storage, or it has trapped as well. It
   * keeps pace: no more steps are saved at a time than a block has instructions.
   */
  lemma {:induction false} OptimizationPreservesMeaning(
      p: Program, q: Program, c: Config, d: Config, n: nat, longest: nat)
    returns (m: nat)
    requires Optimized(p, q) && ConfigsMatch(p, q, c, d)
    ensures m <= n && ConfigsMatch(p, q, SourceSteps(p, c, n), SourceSteps(q, d, m))
    ensures BlocksAtMost(p, longest) && SourceSteps(p, c, n).Running? ==>
              n + Ahead(p, SourceSteps(p, c, n)) <= (longest + 1) * m + Ahead(p, c)
    decreases n
  {
    hide Optimized, ConfigsMatch, SourceStep, Ahead, BlocksAtMost;
    m := 0;
    if n > 0 && c.Running? {
      var k := StepMatches(p, q, c, d);
      BothRun(p, q, c, d);
      var rest := OptimizationPreservesMeaning(p, q, SourceStep(p, c), if k == 0 then d else SourceStep(q, d), n - 1,
          longest);
      m := rest + k;
      if BlocksAtMost(p, longest) {
        AheadAtMost(p, SourceStep(p, c), longest);
      }
      OneMoreRound(longest, rest);
    }
  }

  lemma OneMoreRound(longest: nat, rest: nat)
    ensures (longest + 1) * (rest + 1) == (longest + 1) * rest + longest + 1
  {
  }

  lemma BothRun(p: Program, q: Program, c: Config, d: Config)
    requires ConfigsMatch(p, q, c, d) && c.Running?
    ensures d.Running?
  {
  }

  /** Starting a function with the same arguments in both programs. */
  lemma StartsMatch(p: Program, q: Program, fn: FnId, regs: Regs, storage: map<Word, Word>)
    requires Optimized(p, q) && fn in p
    ensures var c := Running([Frame(fn, p[fn].cfg.entry, 0, regs)], storage); ConfigsMatch(p, q, c, c)
  {
    hide UsedSlots, AgreeOn;
    SameRegs(regs, UsedSlots(q[fn].cfg));
    var f := Frame(fn, p[fn].cfg.entry, 0, regs);
    EnterMatches(p, q, f, f, p[fn].cfg.entry);
  }

  /** Side effects are calls and changes of storage. */
  lemma SideEffectsAre(inst: Instruction)
    ensures HasSideEffects(inst) <==>
            inst.Call? || exists regs, storage :: ExecuteStorage(inst, regs, storage) != storage
  {
    if inst.StorageStore? {
      var regs: Regs, storage: map<Word, Word> := map[], map[];
      assert inst.key in ExecuteStorage(inst, regs, storage);
    }
  }
}
