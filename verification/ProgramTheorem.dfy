/** The main theorem about generated code: whole runs of a program, with calls. */
module ProgramTheorem {
  import opened Wrappers
  import opened Sequences
  import opened Words
  import opened Evm
  import opened Lowered
  import opened Semantics
  import opened Shuffler
  import opened Codegen
  import opened InstructionProofs
  import opened ControlProofs
  import opened Image
  import opened Activations
  import opened StepProofs
  import opened EdgeProofs
  import opened CallProofs
  import opened Simulation

  // ---------------------------------------------------------------------------
  // Calls
  // ---------------------------------------------------------------------------

  lemma ReturnWordIs(img: Image, callers: seq<Act>, cont: Word)
    requires Good(img) && callers != []
    requires callers[0].pc < |img.code| && img.code[callers[0].pc] == Do(JUMPDEST)
    ensures ReturnWord(img, callers, cont) == Offset(img.code, callers[0].pc)
    ensures JumpTarget(img.code, ReturnWord(img, callers, cont)) == Some(callers[0].pc)
  {
    GoodCode(img);
    OffsetBound(img.code, callers[0].pc);
    JumpLands(img.code, Offset(img.code, callers[0].pc), callers[0].pc);
  }

  lemma ChainPush(img: Image, acts: seq<Act>, g: FnId, a1: Act, w: Act, memory: map<nat, Word>)
    requires acts != [] && Good(img) && ChainOk(img, acts, memory)
    requires g in img.units && g in img.reach && g in img.reach[acts[0].frame.fn]
    requires a1.frame.fn == g && w.frame == acts[0].frame && Waiting(img, w, g, memory)
    ensures ChainOk(img, [a1, w] + acts[1..], memory)
  {
    hide Waiting, Good;
    var acts' := [a1, w] + acts[1..];
    forall i | 0 < i < |acts'| ensures Waiting(img, acts'[i], acts'[i - 1].frame.fn, memory) {
      if i > 1 {
        assert acts'[i] == acts[i - 1] && acts'[i - 1].frame.fn == acts[i - 2].frame.fn;
      }
    }
    forall i, j | 0 <= i <= j < |acts'| ensures acts'[i].frame.fn in img.reach[acts'[j].frame.fn] {
      if i > 0 {
        assert acts[i - 1].frame.fn in img.reach[acts[j - 1].frame.fn];
      } else if j > 0 {
        assert acts[0].frame.fn in img.reach[acts[j - 1].frame.fn];
        ReachFurther(img, acts[j - 1].frame.fn, acts[0].frame.fn, g);
      } else {
        ReachItself(img, g);
      }
    }
  }

  lemma ReachItself(img: Image, g: FnId)
    requires Good(img) && g in img.units
    ensures g in img.reach && g in img.reach[g]
  {
    GoodFunction(img, g);
  }

  lemma ReachFurther(img: Image, h: FnId, f: FnId, g: FnId)
    requires Good(img) && h in img.units && h in img.reach && f in img.reach && f in img.reach[h] && g in img.reach[f]
    ensures g in img.reach[h]
  {
    GoodFunction(img, h);
  }

  lemma StackOfCall(img: Image, acts: seq<Act>, a1: Act, w: Act, cont: Word, base: seq<Word>)
    requires Good(img) && acts != [] && forall i :: 0 <= i < |acts| ==> acts[i].frame.fn in img.units
    requires a1.frame.fn in img.units && w.frame == acts[0].frame && w.blockStack == acts[0].blockStack
    requires w.pc < |img.code| && img.code[w.pc] == Do(JUMPDEST) && Offset(img.code, w.pc) < WORD_MODULUS
    ensures FullStack(img, [a1, w] + acts[1..], cont, base) ==
            RegValues(Cur(img, a1), a1.frame.regs) + ([Offset(img.code, w.pc)] + FullStack(img, acts, cont, base))
  {
    hide Cur, RegValues;
    var acts' := [a1, w] + acts[1..];
    assert acts'[1..] == [w] + acts[1..];
    ReturnWordIs(img, acts'[1..], cont);
    StackOfTop(img, acts, w, cont, base);
    StackOfTop(img, acts, acts[0], cont, base);
    assert acts == [acts[0]] + acts[1..];
    SameCur(img, w, acts[0]);
  }

  lemma SameCur(img: Image, w: Act, a: Act)
    requires a.frame.fn in img.units && w.frame == a.frame && w.blockStack == a.blockStack
    ensures Cur(img, w) == Cur(img, a)
  {
  }

  lemma CallStep(img: Image, acts: seq<Act>, cont: Word, base: seq<Word>, storage: map<Word, Word>, m: Machine)
    returns (acts': seq<Act>, m': Machine, n: nat)
    requires Good(img) && Related(img, acts, cont, base, storage, m) && Located(img, acts[0])
    requires acts[0].frame.index < |BlockOf(img, acts[0]).instructions| && CurrentInst(img, acts[0]).Call?
    ensures n > 0 && Reaches(img.code, m, n, m')
    ensures SourceStep(ProgramOf(img.units), Running(Frames(acts), storage)) == Running(Frames(acts'), m'.local.storage)
    ensures Related(img, acts', cont, base, m'.local.storage, m')
    ensures m'.local.memory == m.local.memory
    ensures acts'[|acts'| - 1].frame.fn == acts[|acts| - 1].frame.fn
  {
    hide Reaches, TopOk, OnlyFrame, FullStack, RegValues, Waiting, SourceStep, Cur;
    var a, s := acts[0], m.local;
    StackOfTop(img, acts, a, cont, base);
    assert acts == [a] + acts[1..];
    var g, a1, w, s';
    g, a1, w, s', n := CallSim(img, a, Under(img, acts, cont, base), s);
    SourceCall(img, acts, g, storage);
    acts', m' := [a1, w] + acts[1..], Machine(a1.pc, s');
    ChainPush(img, acts, g, a1, w, s.memory);
    StackOfCall(img, acts, a1, w, cont, base);
    FramesOfCall(acts, a1, w);
  }

  lemma SourceCall(img: Image, acts: seq<Act>, g: FnId, storage: map<Word, Word>)
    requires acts != [] && Located(img, acts[0]) && g in img.units
    requires acts[0].frame.index < |BlockOf(img, acts[0]).instructions| && CurrentInst(img, acts[0]).Call?
    requires CurrentInst(img, acts[0]).target == Internal(g)
    requires |CurrentInst(img, acts[0]).args| == |img.units[g].fn.parameters|
    ensures var callee := Frame(g, img.units[g].fn.cfg.entry, 0,
              Bind(img.units[g].fn.parameters, OperandValues(acts[0].frame.regs, CurrentInst(img, acts[0]).args)));
            SourceStep(ProgramOf(img.units), Running(Frames(acts), storage))
                == Running([callee] + Frames(acts), storage)
  {
  }

  lemma FramesOfCall(acts: seq<Act>, a1: Act, w: Act)
    requires acts != [] && w.frame == acts[0].frame
    ensures Frames([a1, w] + acts[1..]) == [a1.frame] + Frames(acts)
  {
  }

  // ---------------------------------------------------------------------------
  // Returns
  // ---------------------------------------------------------------------------

  lemma ReturnTyped(img: Image, a: Act)
    requires Good(img) && Located(img, a) && BlockOf(img, a).terminator.Return?
    ensures BlockOf(img, a).terminator.value.Some? == img.units[a.frame.fn].fn.returnsValue
  {
    GoodFunction(img, a.frame.fn);
    assert ReturnsAt(img.units[a.frame.fn], a.frame.block);
  }

  /** A return from the outermost activation ends the run at the caller's continuation. */
  lemma LastReturn(
      img: Image, acts: seq<Act>, cont: Word, exit: nat, base: seq<Word>, storage: map<Word, Word>, m: Machine)
    returns (m': Machine, n: nat)
    requires Good(img) && Related(img, acts, cont, base, storage, m) && Located(img, acts[0])
    requires JumpTarget(img.code, cont) == Some(exit)
    requires |acts| == 1 && acts[0].frame.index == |BlockOf(img, acts[0]).instructions|
    requires BlockOf(img, acts[0]).terminator.Return?
    ensures Reaches(img.code, m, n, m')
    ensures var v := ReturnValue(acts[0].frame.regs, BlockOf(img, acts[0]).terminator.value);
            m' == Machine(exit, Local(ReturnStack(v) + base, m.local.memory, storage))
    ensures SourceStep(ProgramOf(img.units), Running(Frames(acts), storage)) ==
            Returned(ReturnValue(acts[0].frame.regs, BlockOf(img, acts[0]).terminator.value), storage)
  {
    hide Reaches, TopOk, RegValues;
    StackOfTop(img, acts, acts[0], cont, base);
    assert acts == [acts[0]] + acts[1..] && acts[1..] == [];
    assert FullStack(img, [], cont, base) == base;
    n := ReturnSim(img, acts[0], cont, exit, base, m.local);
    m' := Machine(exit, m.local.(stack := ReturnStack(ReturnValue(acts[0].frame.regs,
        BlockOf(img, acts[0]).terminator.value)) + base));
  }

  /** Without its top the chain starts at the caller, which is no longer waiting. */
  lemma ChainPop(img: Image, acts: seq<Act>, memory: map<nat, Word>)
    requires |acts| > 1 && ChainOk(img, acts, memory)
    ensures Waiting(img, acts[1], acts[0].frame.fn, memory)
    ensures ChainOk(img, acts[1..], memory)
  {
    hide Waiting;
    var acts' := acts[1..];
    forall i | 0 < i < |acts'| ensures Waiting(img, acts'[i], acts'[i - 1].frame.fn, memory) {
      assert acts'[i] == acts[i + 1] && acts'[i - 1] == acts[i];
    }
  }

  lemma CallAtWaiting(img: Image, acts: seq<Act>, memory: map<nat, Word>)
    requires |acts| > 1 && ChainOk(img, acts, memory)
    ensures Located(img, acts[1]) && acts[1].frame.index < |BlockOf(img, acts[1]).instructions|
    ensures CurrentInst(img, acts[1]).Call? && CurrentInst(img, acts[1]).target == Internal(acts[0].frame.fn)
    ensures CallAt(ProgramOf(img.units), acts[1].frame) == Some(ResultSlot(img, acts[1]))
  {
    assert Waiting(img, acts[1], acts[0].frame.fn, memory);
  }

  /** A return to a caller: its result slot is written, its other slots and its frame are untouched. */
  lemma InnerReturn(img: Image, acts: seq<Act>, cont: Word, base: seq<Word>, storage: map<Word, Word>, m: Machine)
    returns (acts': seq<Act>, m': Machine, n: nat)
    requires Good(img) && Related(img, acts, cont, base, storage, m) && Located(img, acts[0])
    requires |acts| > 1 && acts[0].frame.index == |BlockOf(img, acts[0]).instructions|
    requires BlockOf(img, acts[0]).terminator.Return?
    ensures n > 0 && Reaches(img.code, m, n, m')
    ensures SourceStep(ProgramOf(img.units), Running(Frames(acts), storage)) == Running(Frames(acts'), m'.local.storage)
    ensures Related(img, acts', cont, base, m'.local.storage, m')
    ensures OnlyFrame(img, acts[1].frame.fn, m.local.memory, m'.local.memory)
    ensures acts'[|acts'| - 1].frame.fn == acts[|acts| - 1].frame.fn
  {
    SourceReturn(img, acts, storage, m.local.memory);
    hide Reaches, TopOk, OnlyFrame, FullStack, RegValues, Waiting, SourceStep, Good, Cur, Layout, Under, Resume,
        ReturnValue;
    var a', s';
    a', s', n := ReturnSteps(img, acts, cont, base, m);
    ChainPop(img, acts, m.local.memory);
    ReturnRelated(img, acts[1..], a', cont, base, m.local, s');
    acts', m' := [a'] + acts[1..][1..], Machine(a'.pc, s');
    FramesOfReturn(acts, a');
  }

  /** The machine runs from the return to the point behind the call, its result stored. */
  lemma ReturnSteps(img: Image, acts: seq<Act>, cont: Word, base: seq<Word>, m: Machine)
    returns (a': Act, s': Local, n: nat)
    requires Good(img) && |acts| > 1 && ChainOk(img, acts, m.local.memory) && Located(img, acts[0])
    requires TopOk(img, acts[0], m.local.memory) && m.pc == acts[0].pc
    requires m.local.stack == FullStack(img, acts, cont, base)
    requires acts[0].frame.index == |BlockOf(img, acts[0]).instructions| && BlockOf(img, acts[0]).terminator.Return?
    requires Located(img, acts[1]) && acts[1].frame.index < |BlockOf(img, acts[1]).instructions|
    requires CurrentInst(img, acts[1]).Call?
    ensures var v := ReturnValue(acts[0].frame.regs, BlockOf(img, acts[0]).terminator.value);
            a'.frame == Resume(acts[1].frame, ResultSlot(img, acts[1]), v)
    ensures n > 0 && Reaches(img.code, m, n, Machine(a'.pc, s'))
    ensures TopOk(img, a', s'.memory) && s'.storage == m.local.storage
    ensures s'.stack == RegValues(Cur(img, a'), a'.frame.regs) + Under(img, acts[1..], cont, base)
    ensures OnlyFrame(img, acts[1].frame.fn, m.local.memory, s'.memory)
  {
    hide Reaches, TopOk, OnlyFrame, FullStack, RegValues, Waiting, Good, Cur, Layout;
    var a, w, s := acts[0], acts[1], m.local;
    var v := ReturnValue(a.frame.regs, BlockOf(img, a).terminator.value);
    ChainPop(img, acts, s.memory);
    CallAtWaiting(img, acts, s.memory);
    ReturnTyped(img, a);
    CallTyped(img, w, a.frame.fn);
    var s1, n1 := BackToCaller(img, acts, v, cont, base, m);
    var n2;
    a', s', n2 := ResumeSim(img, w, a.frame.fn, v, Under(img, acts[1..], cont, base), s1);
    n := n1 + n2;
    Chain(img.code, m, n1, Machine(w.pc, s1), n2, Machine(a'.pc, s'));
  }

  /** The callers, the first of them running again. */
  lemma ReturnRelated(img: Image, acts: seq<Act>, a': Act, cont: Word, base: seq<Word>, s: Local, s': Local)
    requires acts != [] && Good(img) && ChainOk(img, acts, s.memory) && a'.frame.fn == acts[0].frame.fn
    requires TopOk(img, a', s'.memory) && OnlyFrame(img, a'.frame.fn, s.memory, s'.memory)
    requires s'.stack == RegValues(Cur(img, a'), a'.frame.regs) + Under(img, acts, cont, base)
    ensures Related(img, [a'] + acts[1..], cont, base, s'.storage, Machine(a'.pc, s'))
  {
    hide TopOk, OnlyFrame, FullStack, RegValues, Cur, Good;
    CallersKept(img, acts, a', s.memory, s'.memory);
    StackOfTop(img, acts, a', cont, base);
  }

  lemma SourceReturn(img: Image, acts: seq<Act>, storage: map<Word, Word>, memory: map<nat, Word>)
    requires |acts| > 1 && Located(img, acts[0]) && ChainOk(img, acts, memory)
    requires acts[0].frame.index == |BlockOf(img, acts[0]).instructions| && BlockOf(img, acts[0]).terminator.Return?
    ensures Located(img, acts[1]) && acts[1].frame.index < |BlockOf(img, acts[1]).instructions|
    ensures CurrentInst(img, acts[1]).Call?
    ensures var v := ReturnValue(acts[0].frame.regs, BlockOf(img, acts[0]).terminator.value);
            SourceStep(ProgramOf(img.units), Running(Frames(acts), storage)) ==
            Running([Resume(acts[1].frame, ResultSlot(img, acts[1]), v)] + Frames(acts)[2..], storage)
  {
    CallAtWaiting(img, acts, memory);
  }

  lemma FramesOfReturn(acts: seq<Act>, a': Act)
    requires |acts| > 1
    ensures Frames([a'] + acts[1..][1..]) == [a'.frame] + Frames(acts)[2..]
  {
  }

  lemma BackToCaller(img: Image, acts: seq<Act>, v: Option<Word>, cont: Word, base: seq<Word>, m: Machine)
    returns (s1: Local, n: nat)
    requires Good(img) && |acts| > 1 && ChainOk(img, acts, m.local.memory)
    requires TopOk(img, acts[0], m.local.memory) && m.pc == acts[0].pc
    requires m.local.stack == FullStack(img, acts, cont, base)
    requires acts[0].frame.index == |BlockOf(img, acts[0]).instructions| && BlockOf(img, acts[0]).terminator.Return?
    requires v == ReturnValue(acts[0].frame.regs, BlockOf(img, acts[0]).terminator.value)
    ensures Reaches(img.code, m, n, Machine(acts[1].pc, s1))
    ensures s1.memory == m.local.memory && s1.storage == m.local.storage
    ensures s1.stack == ReturnStack(v) + (RegValues(Cur(img, acts[1]), acts[1].frame.regs)
        + Under(img, acts[1..], cont, base))
  {
    hide Reaches, TopOk, RegValues, Waiting;
    var callers := acts[1..];
    ChainPop(img, acts, m.local.memory);
    WaitOpen(img, acts[1], acts[0].frame.fn, m.local.memory);
    ReturnWordIs(img, callers, cont);
    StackOfTop(img, acts, acts[0], cont, base);
    StackOfTop(img, callers, callers[0], cont, base);
    assert acts == [acts[0]] + callers && callers == [callers[0]] + callers[1..];
    n := ReturnSim(img, acts[0], ReturnWord(img, callers, cont), acts[1].pc, FullStack(img, callers, cont, base),
        m.local);
    s1 := m.local.(stack := ReturnStack(v) + FullStack(img, callers, cont, base));
  }

  // ---------------------------------------------------------------------------
  // Traps
  // ---------------------------------------------------------------------------

  /** An unreachable terminator ends in an INVALID instruction. */
  lemma TrapStep(img: Image, acts: seq<Act>, cont: Word, base: seq<Word>, storage: map<Word, Word>, m: Machine)
    returns (m': Machine, n: nat)
    requires Good(img) && Related(img, acts, cont, base, storage, m) && Located(img, acts[0])
    requires acts[0].frame.index == |BlockOf(img, acts[0]).instructions|
    requires BlockOf(img, acts[0]).terminator.Unreachable?
    ensures Reaches(img.code, m, n, m') && Step(img.code, m') == None
    ensures m'.local.memory == m.local.memory
    ensures SourceStep(ProgramOf(img.units), Running(Frames(acts), storage)) == Trapped
  {
    var a, s := acts[0], m.local;
    StackOfTop(img, acts, a, cont, base);
    assert acts == [a] + acts[1..];
    m', n := TrapMachine(img, a, Under(img, acts, cont, base), s);
  }

  lemma TrapMachine(img: Image, a: Act, rest: seq<Word>, s: Local) returns (m': Machine, n: nat)
    requires TopOk(img, a, s.memory) && a.frame.index == |BlockOf(img, a).instructions|
    requires BlockOf(img, a).terminator.Unreachable?
    requires s.stack == RegValues(Cur(img, a), a.frame.regs) + rest
    ensures Reaches(img.code, Machine(a.pc, s), n, m') && Step(img.code, m') == None
    ensures m'.local.memory == s.memory
  {
    var base := img.units[a.frame.fn].base;
    hide ShuffleCode, RegValues, Reaches, TopOk, Run, Effect;
    var e := TerminatorNext(img, a, s.memory);
    var move := ShuffleCode(Cur(img, a), [], base).value;
    CodeAtSplit(img.code, a.pc, move.code, [Do(INVALID)]);
    CodeAtHead(img.code, a.pc + |move.code|, [Do(INVALID)]);
    ShuffleMoves(Cur(img, a), [], base, a.frame.regs, rest, Labels(img.code), s);
    var s' := s.(stack := RegValues([], a.frame.regs) + rest);
    RunReaches(img.code, a.pc, move.code, s, s');
    m', n := Machine(a.pc + |move.code|, s'), |move.code|;
    InvalidHalts(img.code, m');
  }

  lemma InvalidHalts(code: seq<Asm>, m: Machine)
    requires m.pc < |code| && code[m.pc] == Do(INVALID)
    ensures Step(code, m) == None
  {
  }

  // ---------------------------------------------------------------------------
  // Runs
  // ---------------------------------------------------------------------------

  /** The frames of functions that may not run hold what they held. */
  ghost predicate FramesOutside(img: Image, running: set<FnId>, before: map<nat, Word>, after: map<nat, Word>) {
    forall g, x :: g in img.units && g in img.sizes && g !in running && x < img.sizes[g] ==>
      Load(after, MemoryOffset(img.units[g].base, x)) == Load(before, MemoryOffset(img.units[g].base, x))
  }

  /** What the outermost activation reaches. */
  function MayRun(img: Image, acts: seq<Act>): set<FnId>
    requires acts != [] && acts[|acts| - 1].frame.fn in img.reach
  {
    img.reach[acts[|acts| - 1].frame.fn]
  }

  lemma StepStaysInside(img: Image, acts: seq<Act>, i: nat, memory: map<nat, Word>, after: map<nat, Word>)
    requires acts != [] && i < |acts| && ChainOk(img, acts, memory)
    requires OnlyFrame(img, acts[i].frame.fn, memory, after)
    ensures FramesOutside(img, MayRun(img, acts), memory, after)
  {
    hide Waiting;
    assert acts[i].frame.fn in img.reach[acts[|acts| - 1].frame.fn];
  }

  /** What the machine has done when the source program is in configuration `c`. */
  ghost predicate Matches(
      img: Image, c: Config, acts: seq<Act>, cont: Word, exit: nat, base: seq<Word>, m: Machine)
  {
    match c
    case Running(frames, storage) => Related(img, acts, cont, base, storage, m) && Frames(acts) == frames
    case Returned(v, storage) => m.pc == exit && m.local.stack == ReturnStack(v) + base && m.local.storage == storage
    case Trapped => Step(img.code, m) == None
  }

  lemma StepMatches(
      img: Image, acts: seq<Act>, cont: Word, exit: nat, base: seq<Word>, storage: map<Word, Word>, m: Machine)
    returns (acts': seq<Act>, m': Machine, n: nat)
    requires Good(img) && Related(img, acts, cont, base, storage, m)
    requires JumpTarget(img.code, cont) == Some(exit)
    ensures Reaches(img.code, m, n, m')
    ensures var c' := SourceStep(ProgramOf(img.units), Running(Frames(acts), storage));
            && Matches(img, c', acts', cont, exit, base, m')
            && (c'.Running? ==> n > 0 && MayRun(img, acts') == MayRun(img, acts))
    ensures FramesOutside(img, MayRun(img, acts), m.local.memory, m'.local.memory)
  {
    hide Reaches, OnlyFrame, FullStack, RegValues, Waiting, SourceStep;
    var a := acts[0];
    assert Located(img, a);
    acts' := [];
    if a.frame.index < |BlockOf(img, a).instructions| {
      if CurrentInst(img, a).Call? {
        acts', m', n := CallStep(img, acts, cont, base, storage, m);
        SameMemory(img, a.frame.fn, m.local.memory);
      } else {
        acts', m', n := LocalStep(img, acts, cont, base, storage, m);
      }
      StepStaysInside(img, acts, 0, m.local.memory, m'.local.memory);
    } else {
      acts', m', n := TerminatorMatches(img, acts, cont, exit, base, storage, m);
    }
  }

  lemma TerminatorMatches(
      img: Image, acts: seq<Act>, cont: Word, exit: nat, base: seq<Word>, storage: map<Word, Word>, m: Machine)
    returns (acts': seq<Act>, m': Machine, n: nat)
    requires Good(img) && Related(img, acts, cont, base, storage, m) && Located(img, acts[0])
    requires JumpTarget(img.code, cont) == Some(exit)
    requires acts[0].frame.index == |BlockOf(img, acts[0]).instructions|
    ensures Reaches(img.code, m, n, m')
    ensures var c' := SourceStep(ProgramOf(img.units), Running(Frames(acts), storage));
            && Matches(img, c', acts', cont, exit, base, m')
            && (c'.Running? ==> n > 0 && MayRun(img, acts') == MayRun(img, acts))
    ensures FramesOutside(img, MayRun(img, acts), m.local.memory, m'.local.memory)
  {
    hide Reaches, OnlyFrame, FullStack, RegValues, Waiting, SourceStep;
    acts' := [];
    match BlockOf(img, acts[0]).terminator
    case Unreachable =>
      m', n := TrapStep(img, acts, cont, base, storage, m);
      SameMemory(img, acts[0].frame.fn, m.local.memory);
      StepStaysInside(img, acts, 0, m.local.memory, m'.local.memory);
    case Return(_) =>
      if |acts| == 1 {
        m', n := LastReturn(img, acts, cont, exit, base, storage, m);
        SameMemory(img, acts[0].frame.fn, m.local.memory);
        StepStaysInside(img, acts, 0, m.local.memory, m'.local.memory);
      } else {
        acts', m', n := InnerReturn(img, acts, cont, base, storage, m);
        StepStaysInside(img, acts, 1, m.local.memory, m'.local.memory);
      }
    case _ =>
      acts', m', n := LocalStep(img, acts, cont, base, storage, m);
      StepStaysInside(img, acts, 0, m.local.memory, m'.local.memory);
  }

  lemma FramesOutsideChain(img: Image, running: set<FnId>, a: map<nat, Word>, b: map<nat, Word>, c: map<nat, Word>)
    requires FramesOutside(img, running, a, b) && FramesOutside(img, running, b, c)
    ensures FramesOutside(img, running, a, c)
  {
  }

  /**
   * Any number of source steps is matched by machine steps, at least as many
   * while the source runs. Nothing but the frames of the functions that the outermost
   * activation reaches is written.
   */
  lemma {:induction false} RunMatches(
      img: Image, acts: seq<Act>, cont: Word, exit: nat, base: seq<Word>, storage: map<Word, Word>, m: Machine, k: nat)
    returns (acts': seq<Act>, m': Machine, n: nat)
    requires Good(img) && Related(img, acts, cont, base, storage, m)
    requires JumpTarget(img.code, cont) == Some(exit)
    ensures Reaches(img.code, m, n, m')
    ensures var c := SourceSteps(ProgramOf(img.units), Running(Frames(acts), storage), k);
            Matches(img, c, acts', cont, exit, base, m') && (c.Running? ==> n >= k)
    ensures FramesOutside(img, MayRun(img, acts), m.local.memory, m'.local.memory)
    decreases k
  {
    hide Good, Reaches, Related, SourceStep, SourceSteps, FramesOutside, MayRun, Matches, Frames, ProgramOf;
    RelatedKnown(img, acts, cont, base, storage, m);
    var running := MayRun(img, acts);
    if k == 0 {
      acts', m', n := acts, m, 0;
      StayReaches(img, m, running);
      StayMatches(img, acts, cont, exit, base, storage, m);
    } else {
      var p := ProgramOf(img.units);
      var acts1, m1, n1 := StepMatches(img, acts, cont, exit, base, storage, m);
      var c1 := SourceStep(p, Running(Frames(acts), storage));
      StepsUnfold(p, Frames(acts), storage, k);
      if c1.Running? {
        MatchesRunning(img, c1, acts1, cont, exit, base, m1);
        var n2;
        acts', m', n2 := RunMatches(img, acts1, cont, exit, base, c1.storage, m1, k - 1);
        n := n1 + n2;
        Chain(img.code, m, n1, m1, n2, m');
        FramesOutsideChain(img, running, m.local.memory, m1.local.memory, m'.local.memory);
      } else {
        acts', m', n := acts1, m1, n1;
      }
    }
  }

  lemma RelatedKnown(img: Image, acts: seq<Act>, cont: Word, base: seq<Word>, storage: map<Word, Word>, m: Machine)
    requires Related(img, acts, cont, base, storage, m)
    ensures acts != [] && acts[|acts| - 1].frame.fn in img.reach
  {
    hide TopOk, Waiting, FullStack;
  }

  lemma StayMatches(
      img: Image, acts: seq<Act>, cont: Word, exit: nat, base: seq<Word>, storage: map<Word, Word>, m: Machine)
    requires Related(img, acts, cont, base, storage, m)
    ensures Matches(img, SourceSteps(ProgramOf(img.units), Running(Frames(acts), storage), 0), acts, cont, exit, base,
        m)
  {
    hide Related;
  }

  lemma MatchesRunning(
      img: Image, c: Config, acts: seq<Act>, cont: Word, exit: nat, base: seq<Word>, m: Machine)
    requires c.Running? && Matches(img, c, acts, cont, exit, base, m)
    ensures Related(img, acts, cont, base, c.storage, m) && c == Running(Frames(acts), c.storage)
  {
    hide Related;
  }

  lemma StepsUnfold(p: Program, frames: seq<Frame>, storage: map<Word, Word>, k: nat)
    requires k > 0
    ensures var c := SourceStep(p, Running(frames, storage));
            SourceSteps(p, Running(frames, storage), k) == if c.Running? then SourceSteps(p, c, k - 1) else c
  {
    hide SourceStep;
    var c := SourceStep(p, Running(frames, storage));
    if !c.Running? {
      assert SourceSteps(p, c, k - 1) == c;
    }
  }

  lemma StayReaches(img: Image, m: Machine, running: set<FnId>)
    ensures Reaches(img.code, m, 0, m) && FramesOutside(img, running, m.local.memory, m.local.memory)
  {
  }

  // ---------------------------------------------------------------------------
  // Invocations
  // ---------------------------------------------------------------------------

  function Start(img: Image, fn: FnId, args: seq<Word>): Frame
    requires fn in img.units && |args| == |img.units[fn].fn.parameters|
  {
    Frame(fn, img.units[fn].fn.cfg.entry, 0, Bind(img.units[fn].fn.parameters, args))
  }

  /** A machine about to enter `fn`: arguments on the stack, or in memory if it is external. */
  ghost predicate Invoked(img: Image, fn: FnId, args: seq<Word>, cont: Word, base: seq<Word>, m: Machine)
    requires fn in img.units && fn in img.calls && |args| == |img.units[fn].fn.parameters|
  {
    var u := img.units[fn];
    && JumpTarget(img.code, LabelWord(img.code, img.calls[fn].entryLabel)) == Some(m.pc)
    && if u.fn.isExternal then
         m.local.stack == [cont] + base &&
         forall i :: 0 <= i < |args| ==> Load(m.local.memory, MemoryOffset(u.base, u.fn.parameters[i])) == args[i]
       else
         m.local.stack == [cont] + Reversed(args) + base
  }

  lemma {:induction false} LoadAllRun(
      slots: seq<Slot>, base: nat, regs: Regs, rest: seq<Word>, labels: Label -> Word, s: Local)
    requires s.stack == rest
    requires forall x :: x in slots ==> Load(s.memory, MemoryOffset(base, x)) == Read(regs, x)
    ensures Run(LoadAll(slots, base), labels, s) == Some(s.(stack := RegValues(slots, regs) + rest))
    decreases |slots|
  {
    hide Read, Run, AsmEffect, Effect, RegValues, MemoryOffset;
    if slots == [] {
      NoRegs(regs, rest, labels, s);
    } else {
      var s1 := s.(stack := RegValues(slots[1..], regs) + rest);
      LoadAllRun(slots[1..], base, regs, rest, labels, s);
      RunPushLoad(MemoryOffset(base, slots[0]), labels, s1);
      RunAppend(LoadAll(slots[1..], base), [PushWord(MemoryOffset(base, slots[0])), Do(MLOAD)], labels, s);
      HeadRegs(slots[0], slots[1..], regs);
      assert [slots[0]] + slots[1..] == slots;
      assert [Read(regs, slots[0])] + (RegValues(slots[1..], regs) + rest) == RegValues(slots, regs) + rest;
    }
  }

  lemma NoRegs(regs: Regs, rest: seq<Word>, labels: Label -> Word, s: Local)
    requires s.stack == rest
    ensures Run([], labels, s) == Some(s.(stack := RegValues([], regs) + rest))
  {
    assert RegValues([], regs) + rest == rest;
  }

  /** The parameters of an external function are at home once its prologue has loaded the stack slots. */
  lemma ExternalHomes(img: Image, fn: FnId, args: seq<Word>, memory: map<nat, Word>)
    requires Good(img) && fn in img.units && |args| == |img.units[fn].fn.parameters|
    requires forall i :: 0 <= i < |args| ==>
      Load(memory, MemoryOffset(img.units[fn].base, img.units[fn].fn.parameters[i])) == args[i]
    ensures Known(img, fn) && img.units[fn].fn.cfg.entry in img.live[fn].liveIn
    ensures ReadyFor(img, fn, img.units[fn].fn.cfg.entry, Start(img, fn, args).regs, memory)
    ensures forall x :: x in Layout(img.units[fn].alloc, img.units[fn].fn.cfg.entry) ==>
              Load(memory, MemoryOffset(img.units[fn].base, x)) == Read(Start(img, fn, args).regs, x)
  {
    EntryFacts(img, fn);
    var u := img.units[fn];
    forall x | x in u.fn.parameters
      ensures Load(memory, MemoryOffset(u.base, x)) == Read(Bind(u.fn.parameters, args), x)
    {
      var i :| 0 <= i < |u.fn.parameters| && u.fn.parameters[i] == x;
      BindRead(u.fn.parameters, args, i);
    }
  }

  lemma ExternalEntry(img: Image, fn: FnId, args: seq<Word>, rest: seq<Word>, s: Local, pc: nat)
    returns (a: Act, s': Local, n: nat)
    requires Good(img) && fn in img.units && img.units[fn].fn.isExternal && |args| == |img.units[fn].fn.parameters|
    requires fn in img.calls && JumpTarget(img.code, LabelWord(img.code, img.calls[fn].entryLabel)) == Some(pc)
    requires s.stack == rest
    requires forall i :: 0 <= i < |args| ==>
      Load(s.memory, MemoryOffset(img.units[fn].base, img.units[fn].fn.parameters[i])) == args[i]
    ensures a.frame == Start(img, fn, args)
    ensures Reaches(img.code, Machine(pc, s), n, Machine(a.pc, s'))
    ensures TopOk(img, a, s'.memory)
    ensures s' == s.(stack := RegValues(Cur(img, a), a.frame.regs) + rest)
  {
    hide RestCode, ShuffleCode, Reaches, Good, CodeAt, Run, RegValues;
    var u, regs := img.units[fn], Start(img, fn, args).regs;
    var b := u.fn.cfg.entry;
    EntryFacts(img, fn);
    ExternalHomes(img, fn, args, s.memory);
    var j, next := EntryPlace(img, fn);
    var entry := Layout(u.alloc, b);
    LoadAllRun(entry, u.base, regs, rest, Labels(img.code), s);
    s' := s.(stack := RegValues(entry, regs) + rest);
    n := LandThenRun(img.code, j, LoadAll(entry, u.base), s, s');
    a := Act(Frame(fn, b, 0, regs), [], next, j + 1 + |LoadAll(entry, u.base)|);
    BodyTop(img, fn, b, next, a.pc, regs, s.memory);
  }

  /** Entering a function establishes the relation. */
  lemma InvocationRelated(
      img: Image, fn: FnId, args: seq<Word>, cont: Word, exit: nat, base: seq<Word>, m: Machine)
    returns (a: Act, m': Machine, n: nat)
    requires Good(img) && fn in img.units && fn in img.calls && |args| == |img.units[fn].fn.parameters|
    requires JumpTarget(img.code, cont) == Some(exit)
    requires Invoked(img, fn, args, cont, base, m)
    ensures a.frame == Start(img, fn, args)
    ensures Reaches(img.code, m, n, m') && m'.local.memory == m.local.memory
    ensures Related(img, [a], cont, base, m.local.storage, m')
  {
    hide Reaches, TopOk, RegValues;
    var s', j;
    UnitKnown(img, fn);
    ReachItself(img, fn);
    if img.units[fn].fn.isExternal {
      a, s', n := ExternalEntry(img, fn, args, [cont] + base, m.local, m.pc);
    } else {
      j, a, s', n := CalleeEntry(img, fn, args, cont, base, m.local);
    }
    m' := Machine(a.pc, s');
    assert [a][1..] == [];
    assert FullStack(img, [a][1..], cont, base) == base;
    StackOfTop(img, [a], a, cont, base);
    assert [a] + [a][1..] == [a];
    SameMemory(img, fn, m.local.memory);
  }

  /**
   * Compiler correctness. Invoke a function of a good image with any arguments,
   * any continuation, any stack below it and any memory and storage. When the
   * source program has run k steps, the machine has run to a matching state:
   *  - if the source returned, the machine is at the continuation with exactly
   *    the returned value on the untouched stack and with the source's storage;
   *  - if the source trapped, the machine is at an exceptional halt;
   *  - if the source still runs, the machine has run at least k steps.
   * The memory frames of all functions that the invoked one does not reach are untouched.
   */
  lemma ProgramCorrect(
      img: Image, fn: FnId, args: seq<Word>, cont: Word, exit: nat, base: seq<Word>, m: Machine, k: nat)
    returns (acts: seq<Act>, m': Machine, n: nat)
    requires Good(img) && fn in img.units && fn in img.calls && fn in img.reach
    requires |args| == |img.units[fn].fn.parameters|
    requires JumpTarget(img.code, cont) == Some(exit)
    requires Invoked(img, fn, args, cont, base, m)
    ensures Iterate(img.code, m, n) == Some(m')
    ensures var c := SourceSteps(ProgramOf(img.units), Running([Start(img, fn, args)], m.local.storage), k);
            Matches(img, c, acts, cont, exit, base, m') && (c.Running? ==> n >= k)
    ensures FramesOutside(img, img.reach[fn], m.local.memory, m'.local.memory)
  {
    hide Reaches, Related, Invoked, SourceSteps, FramesOutside;
    var a, m1, n1 := InvocationRelated(img, fn, args, cont, exit, base, m);
    var n2;
    acts, m', n2 := RunMatches(img, [a], cont, exit, base, m.local.storage, m1, k);
    assert Frames([a]) == [Start(img, fn, args)];
    n := n1 + n2;
    Chain(img.code, m, n1, m1, n2, m');
    ReachesIterates(img.code, m, n, m');
  }
}
