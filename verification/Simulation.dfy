/**
 * The compiled program simulates the source program: every source step is
 * matched by machine steps, for any number of steps, through calls and returns.
 */
module Simulation {
  import opened Wrappers
  import opened Sequences
  import opened Words
  import opened Evm
  import opened Lowered
  import opened Semantics
  import opened LiveSets
  import opened Codegen
  import opened InstructionProofs
  import opened ControlProofs
  import opened Image
  import opened Activations
  import opened StepProofs
  import opened EdgeProofs
  import opened CallProofs

  // ---------------------------------------------------------------------------
  // Calls
  // ---------------------------------------------------------------------------

  /** The parts of a call's code. */
  lemma CallParts(img: Image, a: Act, memory: map<nat, Word>)
    returns (g: FnId, pushes: seq<Asm>, store: (seq<Asm>, seq<Slot>), tail: Piece)
    requires TopOk(img, a, memory) && a.frame.index < |BlockOf(img, a).instructions| && CurrentInst(img, a).Call?
    ensures CurrentInst(img, a).target == Internal(g) && g in img.calls
    ensures |CurrentInst(img, a).args| == |img.calls[g].parameters|
    ensures ArgumentsCode(CurrentInst(img, a).args, img.units[a.frame.fn].base, EntryOf(img, a), a.blockStack)
        == Ok(pushes)
    ensures StoreResult(CurrentInst(img, a).result, ContextIn(img, a.frame.fn), EntryOf(img, a), a.blockStack)
        == Ok(store)
    ensures RestOf(img, a, a.frame.index + 1, store.1, a.next + 1) == Ok(tail) && tail.whole
    ensures CodeAt(img.code, a.pc, pushes + CallJump(a.next, img.calls[g].entryLabel) + (store.0 + tail.code))
  {
    TopOpen(img, a, memory);
    RestUnfolds(img, a, a.frame.index, a.blockStack, a.next);
    var inst := CurrentInst(img, a);
    g := inst.target.fn;
    pushes := ArgumentsCode(inst.args, img.units[a.frame.fn].base, EntryOf(img, a), a.blockStack).value;
    store := StoreResult(inst.result, ContextIn(img, a.frame.fn), EntryOf(img, a), a.blockStack).value;
    tail := RestOf(img, a, a.frame.index + 1, store.1, a.next + 1).value;
    Regroup(pushes + CallJump(a.next, img.calls[g].entryLabel), store.0, tail.code);
  }

  lemma Regroup(x: seq<Asm>, y: seq<Asm>, z: seq<Asm>)
    ensures x + y + z == x + (y + z)
  {
  }

  lemma CallMachine(
      code: seq<Asm>, pc: nat, args: seq<Operand>, base: nat, entry: seq<Slot>, bs: seq<Slot>, pushes: seq<Asm>,
      cont: Label, callee: Label, after: seq<Asm>, j: nat, regs: Regs, rest: seq<Word>, s: Local)
    returns (k: nat, n: nat)
    requires UniqueMarks(code) && CodeSize(code) <= ADDRESS_LIMIT
    requires ArgumentsCode(args, base, entry, bs) == Ok(pushes)
    requires CodeAt(code, pc, pushes + CallJump(cont, callee) + after)
    requires JumpTarget(code, LabelWord(code, callee)) == Some(j)
    requires s.stack == RegValues(bs + entry, regs) + rest
    requires ArgumentsFindable(args, bs + entry, regs, base, s.memory)
    ensures k < |code| && code[k] == Do(JUMPDEST) && Offset(code, k) < WORD_MODULUS
    ensures CodeAt(code, k, [Do(JUMPDEST)] + after)
    ensures Reaches(code, Machine(pc, s), n,
                    Machine(j, s.(stack := [Offset(code, k)] + Reversed(OperandValues(regs, args)) + s.stack)))
  {
    hide Run, Reaches, CodeAt, ArgumentsCode;
    var values := Reversed(OperandValues(regs, args));
    ArgumentsRun(args, base, entry, bs, regs, rest, Labels(code), s);
    k, n := CallTransfer(code, pc, pushes, cont, callee, after, j, s, s.(stack := values + s.stack));
    assert [Offset(code, k)] + (values + s.stack) == [Offset(code, k)] + values + s.stack;
  }

  lemma CallTransfer(
      code: seq<Asm>, pc: nat, part: seq<Asm>, cont: Label, callee: Label, after: seq<Asm>, j: nat, s: Local, s1: Local)
    returns (k: nat, n: nat)
    requires UniqueMarks(code) && CodeSize(code) <= ADDRESS_LIMIT
    requires CodeAt(code, pc, part + CallJump(cont, callee) + after)
    requires Run(part, Labels(code), s) == Some(s1)
    requires JumpTarget(code, LabelWord(code, callee)) == Some(j)
    ensures k < |code| && code[k] == Do(JUMPDEST) && Offset(code, k) < WORD_MODULUS
    ensures CodeAt(code, k, [Do(JUMPDEST)] + after)
    ensures Reaches(code, Machine(pc, s), n, Machine(j, s1.(stack := [Offset(code, k)] + s1.stack)))
  {
    hide Run, Reaches, LabelWord, CodeSize;
    CodeAtSplit(code, pc, part + CallJump(cont, callee), after);
    CodeAtSplit(code, pc, part, CallJump(cont, callee));
    RunReaches(code, pc, part, s, s1);
    var m := CallJumpReaches(code, pc + |part|, cont, callee, j, s1);
    k := pc + |part| + 4;
    n := |part| + m;
    Chain(code, Machine(pc, s), |part|, Machine(pc + |part|, s1), m,
          Machine(j, s1.(stack := [Offset(code, k)] + s1.stack)));
    ContinuationAt(code, k, after);
  }

  lemma ContinuationAt(code: seq<Asm>, k: nat, after: seq<Asm>)
    requires k < |code| && code[k] == Do(JUMPDEST) && CodeAt(code, k + 1, after)
    ensures CodeAt(code, k, [Do(JUMPDEST)] + after)
  {
    assert code[k..k + 1 + |after|] == [code[k]] + code[k + 1..k + 1 + |after|];
  }

  lemma CallTyped(img: Image, a: Act, g: FnId)
    requires Good(img) && Located(img, a) && a.frame.index < |BlockOf(img, a).instructions|
    requires CurrentInst(img, a).Call? && CurrentInst(img, a).target == Internal(g)
    ensures g in img.units && g in img.reach && g in img.reach[a.frame.fn]
    ensures !img.units[g].fn.isExternal && img.units[g].fn.returnsValue == CurrentInst(img, a).result.Some?
    ensures g in img.calls && img.calls[g].parameters == img.units[g].fn.parameters
  {
    GoodFunction(img, a.frame.fn);
    assert CallOk(img, a.frame.fn, a.frame.block, a.frame.index);
    GoodFunction(img, g);
  }

  lemma ArgumentsFound(img: Image, a: Act, memory: map<nat, Word>)
    requires TopOk(img, a, memory) && a.frame.index < |BlockOf(img, a).instructions| && CurrentInst(img, a).Call?
    ensures ArgumentsFindable(CurrentInst(img, a).args, Cur(img, a), a.frame.regs, img.units[a.frame.fn].base, memory)
  {
    TopHomes(img, a, memory);
    UsesFound(img, a, memory);
    var args := CurrentInst(img, a).args;
    forall i | 0 <= i < |args| && args[i].Location?
      ensures Findable(args[i].slot, Cur(img, a), a.frame.regs, img.units[a.frame.fn].base, memory)
    {
      OperandFindable(args[i], args);
    }
  }

  /** The caller while it waits: everything still live after the call stays at home. */
  lemma CallerWaits(
      img: Image, a: Act, g: FnId, store: (seq<Asm>, seq<Slot>), tail: Piece, k: nat, memory: map<nat, Word>)
    requires Located(img, a) && Shape(Cur(img, a), AllocOf(img, a)) && a.frame.index < |BlockOf(img, a).instructions|
    requires AllHome(LiveAt(img, a, a.frame.index), img, a, memory)
    requires CurrentInst(img, a).Call? && CurrentInst(img, a).target == Internal(g)
    requires StoreResult(CurrentInst(img, a).result, ContextIn(img, a.frame.fn), EntryOf(img, a), a.blockStack)
        == Ok(store)
    requires RestOf(img, a, a.frame.index + 1, store.1, a.next + 1) == Ok(tail) && tail.whole
    requires CodeAt(img.code, k, [Do(JUMPDEST)] + (store.0 + tail.code))
    ensures Waiting(img, Act(a.frame, a.blockStack, a.next + 1, k), g, memory)
  {
    var w := Act(a.frame, a.blockStack, a.next + 1, k);
    LiveUnfolds(img, a, a.frame.index);
    Regroup([Do(JUMPDEST)], store.0, tail.code);
    assert LiveAt(img, w, w.frame.index + 1) - Defs(CurrentInst(img, a)) <= LiveAt(img, a, a.frame.index);
    forall facet ensures WaitFacet(img, w, g, memory, facet) {
      match facet
      case SlotShape =>
      case CodeInPlace =>
      case ValuesHome =>
    }
  }

  /** A call: the caller's part of the stack stays, the callee's frame is built on top of it. */
  lemma CallSim(img: Image, a: Act, rest: seq<Word>, s: Local) returns (g: FnId, a1: Act, w: Act, s': Local, n: nat)
    requires Good(img) && TopOk(img, a, s.memory)
    requires a.frame.index < |BlockOf(img, a).instructions| && CurrentInst(img, a).Call?
    requires s.stack == RegValues(Cur(img, a), a.frame.regs) + rest
    ensures CurrentInst(img, a).target == Internal(g) && g in img.units && g in img.reach
    ensures g in img.reach[a.frame.fn]
    ensures |CurrentInst(img, a).args| == |img.units[g].fn.parameters|
    ensures a1.frame == Frame(g, img.units[g].fn.cfg.entry, 0,
                              Bind(img.units[g].fn.parameters, OperandValues(a.frame.regs, CurrentInst(img, a).args)))
    ensures w.frame == a.frame && w.blockStack == a.blockStack && Waiting(img, w, g, s.memory)
    ensures TopOk(img, a1, s.memory)
    ensures n > 0 && Reaches(img.code, Machine(a.pc, s), n, Machine(a1.pc, s'))
    ensures w.pc < |img.code| && Offset(img.code, w.pc) < WORD_MODULUS && img.code[w.pc] == Do(JUMPDEST)
    ensures s' == s.(stack := RegValues(Cur(img, a1), a1.frame.regs) + ([Offset(img.code, w.pc)] + s.stack))
  {
    var pushes, store, tail;
    g, pushes, store, tail := CallParts(img, a, s.memory);
    CallTyped(img, a, g);
    ArgumentsFound(img, a, s.memory);
    TopHomes(img, a, s.memory);
    assert TopFacet(img, a, s.memory, SlotShape);
    var k;
    a1, s', k, n := CallInto(img, a, g, pushes, store.0 + tail.code, rest, s);
    w := Act(a.frame, a.blockStack, a.next + 1, k);
    CallerWaits(img, a, g, store, tail, k, s.memory);
  }

  lemma CallInto(img: Image, a: Act, g: FnId, pushes: seq<Asm>, after: seq<Asm>, rest: seq<Word>, s: Local)
    returns (a1: Act, s': Local, k: nat, n: nat)
    requires Good(img) && Located(img, a) && a.frame.index < |BlockOf(img, a).instructions|
    requires CurrentInst(img, a).Call? && g in img.units && g in img.calls && !img.units[g].fn.isExternal
    requires |CurrentInst(img, a).args| == |img.units[g].fn.parameters|
    requires ArgumentsCode(CurrentInst(img, a).args, img.units[a.frame.fn].base, EntryOf(img, a), a.blockStack)
        == Ok(pushes)
    requires CodeAt(img.code, a.pc, pushes + CallJump(a.next, img.calls[g].entryLabel) + after)
    requires s.stack == RegValues(Cur(img, a), a.frame.regs) + rest
    requires ArgumentsFindable(CurrentInst(img, a).args, Cur(img, a), a.frame.regs, img.units[a.frame.fn].base,
        s.memory)
    ensures a1.frame == Frame(g, img.units[g].fn.cfg.entry, 0,
                              Bind(img.units[g].fn.parameters, OperandValues(a.frame.regs, CurrentInst(img, a).args)))
    ensures TopOk(img, a1, s.memory)
    ensures n > 0 && Reaches(img.code, Machine(a.pc, s), n, Machine(a1.pc, s'))
    ensures k < |img.code| && Offset(img.code, k) < WORD_MODULUS && img.code[k] == Do(JUMPDEST)
    ensures CodeAt(img.code, k, [Do(JUMPDEST)] + after)
    ensures s' == s.(stack := RegValues(Cur(img, a1), a1.frame.regs) + ([Offset(img.code, k)] + s.stack))
  {
    hide Reaches, ArgumentsCode;
    var args := CurrentInst(img, a).args;
    var values := OperandValues(a.frame.regs, args);
    var j, n1, n2;
    j := EntryTarget(img, g);
    GoodCode(img);
    k, n1 := CallMachine(img.code, a.pc, args, img.units[a.frame.fn].base, EntryOf(img, a), a.blockStack, pushes,
                         a.next, img.calls[g].entryLabel, after, j, a.frame.regs, rest, s);
    var s1 := s.(stack := [Offset(img.code, k)] + Reversed(values) + s.stack);
    j, a1, s', n2 := CalleeEntry(img, g, values, Offset(img.code, k), s.stack, s1);
    n := n1 + n2;
    Chain(img.code, Machine(a.pc, s), n1, Machine(j, s1), n2, Machine(a1.pc, s'));
  }

  lemma EntryTarget(img: Image, g: FnId) returns (j: nat)
    requires Good(img) && g in img.units && g in img.calls
    ensures JumpTarget(img.code, LabelWord(img.code, img.calls[g].entryLabel)) == Some(j)
  {
    var next;
    EntryFacts(img, g);
    j, next := EntryPlace(img, g);
  }

  // ---------------------------------------------------------------------------
  // Returns
  // ---------------------------------------------------------------------------

  /** A return leaves its value on top of everything below the activation. */
  lemma ReturnSim(img: Image, a: Act, d: Word, j: nat, rest: seq<Word>, s: Local) returns (n: nat)
    requires TopOk(img, a, s.memory)
    requires a.frame.index == |BlockOf(img, a).instructions| && BlockOf(img, a).terminator.Return?
    requires s.stack == RegValues(Cur(img, a), a.frame.regs) + ([d] + rest)
    requires JumpTarget(img.code, d) == Some(j)
    ensures var v := ReturnValue(a.frame.regs, BlockOf(img, a).terminator.value);
            Reaches(img.code, Machine(a.pc, s), n, Machine(j, s.(stack := ReturnStack(v) + rest)))
  {
    hide TerminatorCode, Reaches;
    var value := BlockOf(img, a).terminator.value;
    var e := TerminatorNext(img, a, s.memory);
    TopHomes(img, a, s.memory);
    if value.Some? && value.value.Location? {
      TerminatorFound(img, a, value.value, s.memory);
    }
    n := ReturnMachine(img.code, a.pc, value, ContextIn(img, a.frame.fn), EntryOf(img, a), a.blockStack, e, j,
                       d, a.frame.regs, rest, s);
  }

  function ResultSlot(img: Image, w: Act): Option<Slot>
    requires Located(img, w) && w.frame.index < |BlockOf(img, w).instructions|
    requires BlockOf(img, w).instructions[w.frame.index].Call?
  {
    BlockOf(img, w).instructions[w.frame.index].result
  }

  /** The caller once its call has returned `v`. */
  ghost function Resumed(img: Image, w: Act, v: Option<Word>): Act
    requires Located(img, w) && w.frame.index < |BlockOf(img, w).instructions|
    requires BlockOf(img, w).instructions[w.frame.index].Call?
    requires StoreOf(img, w).Ok?
  {
    Act(Resume(w.frame, ResultSlot(img, w), v), StoreOf(img, w).value.1, w.next, w.pc + 1 + |StoreOf(img, w).value.0|)
  }

  /** Where a waiting activation continues. */
  lemma WaitOpen(img: Image, w: Act, callee: FnId, memory: map<nat, Word>)
    requires Waiting(img, w, callee, memory)
    ensures Located(img, w) && w.frame.index < |BlockOf(img, w).instructions| && CurrentInst(img, w).Call?
    ensures Shape(Cur(img, w), AllocOf(img, w)) && StoreOf(img, w).Ok?
    ensures RestOf(img, w, w.frame.index + 1, StoreOf(img, w).value.1, w.next).Ok?
    ensures RestOf(img, w, w.frame.index + 1, StoreOf(img, w).value.1, w.next).value.whole
    ensures w.pc < |img.code| && img.code[w.pc] == Do(JUMPDEST)
    ensures CodeAt(img.code, w.pc + 1, StoreOf(img, w).value.0)
    ensures CodeAt(img.code, w.pc + 1 + |StoreOf(img, w).value.0|,
                   RestOf(img, w, w.frame.index + 1, StoreOf(img, w).value.1, w.next).value.code)
    ensures AllHome(LiveAt(img, w, w.frame.index + 1) - Defs(CurrentInst(img, w)), img, w, memory)
  {
    hide RestOf, StoreOf, LiveAt;
    assert WaitFacet(img, w, callee, memory, SlotShape) && WaitFacet(img, w, callee, memory, CodeInPlace)
        && WaitFacet(img, w, callee, memory, ValuesHome);
    var store := StoreOf(img, w).value.0;
    var rest := RestOf(img, w, w.frame.index + 1, StoreOf(img, w).value.1, w.next).value.code;
    Regroup([Do(JUMPDEST)], store, rest);
    CodeAtSplit(img.code, w.pc, [Do(JUMPDEST)], store + rest);
    CodeAtHead(img.code, w.pc, [Do(JUMPDEST)]);
    CodeAtSplit(img.code, w.pc + 1, store, rest);
  }

  /** Storing a returned value, or nothing. */
  lemma StoreResultRun(
      result: Option<Slot>, v: Option<Word>, ctx: Context, entry: seq<Slot>, bs: seq<Slot>,
      store: (seq<Asm>, seq<Slot>),
      regs: Regs, regs': Regs, rest: seq<Word>, labels: Label -> Word, s: Local)
    requires StoreResult(result, ctx, entry, bs) == Ok(store)
    requires result.Some? == v.Some?
    requires regs' == match (result, v) { case (Some(d), Some(w)) => regs[d := w] case _ => regs }
    requires Shape(bs + entry, ctx.alloc)
    requires s.stack == ReturnStack(v) + (RegValues(bs + entry, regs) + rest)
    ensures store.1 == match result { case Some(d) => AfterStore(d, ctx.alloc, entry, bs) case None => bs }
    ensures var memory' := match (result, v) { case (Some(d), Some(w)) => MemoryAfter(d, w, ctx, s.memory) case _ =>
        s.memory };
            Run(store.0, labels, s) == Some(Local(RegValues(store.1 + entry, regs') + rest, memory', s.storage))
  {
    hide StoreCode;
    if result.Some? {
      assert s.stack == [v.value] + RegValues(bs + entry, regs) + rest;
      StoreShape(result.value, ctx, entry, bs);
      StoreRun(result.value, v.value, ctx, entry, bs, regs, rest, labels, s);
    } else {
      assert s.stack == RegValues(bs + entry, regs) + rest;
    }
  }

  /** After the return the caller's slots and its frame are as they were, but for the result. */
  lemma ResumeSim(img: Image, w: Act, callee: FnId, v: Option<Word>, rest: seq<Word>, s: Local)
    returns (a': Act, s': Local, n: nat)
    requires Good(img) && Waiting(img, w, callee, s.memory)
    requires v.Some? == ResultSlot(img, w).Some?
    requires s.stack == ReturnStack(v) + (RegValues(Cur(img, w), w.frame.regs) + rest)
    ensures a'.frame == Resume(w.frame, ResultSlot(img, w), v)
    ensures n > 0 && Reaches(img.code, Machine(w.pc, s), n, Machine(a'.pc, s'))
    ensures TopOk(img, a', s'.memory)
    ensures s'.stack == RegValues(Cur(img, a'), a'.frame.regs) + rest && s'.storage == s.storage
    ensures OnlyFrame(img, w.frame.fn, s.memory, s'.memory)
  {
    hide StoreResult, RestCode, LiveBefore, Reaches, Good, RegValues, TopOk, Waiting, AllHome, OnlyFrame, MemoryAfter,
        Shape, AfterStore, CodeAt;
    WaitOpen(img, w, callee, s.memory);
    a' := Resumed(img, w, v);
    s', n := ResumeRun(img, w, v, rest, s);
    ResumedHomes(img, w, v, s.memory, s'.memory);
    TopClose(img, a', s'.memory);
  }

  /** The code behind the continuation stores the result. */
  lemma ResumeRun(img: Image, w: Act, v: Option<Word>, rest: seq<Word>, s: Local) returns (s': Local, n: nat)
    requires Located(img, w) && w.frame.index < |BlockOf(img, w).instructions| && CurrentInst(img, w).Call?
    requires Shape(Cur(img, w), AllocOf(img, w)) && StoreOf(img, w).Ok?
    requires w.pc < |img.code| && img.code[w.pc] == Do(JUMPDEST)
    requires CodeAt(img.code, w.pc + 1, StoreOf(img, w).value.0)
    requires v.Some? == ResultSlot(img, w).Some?
    requires s.stack == ReturnStack(v) + (RegValues(Cur(img, w), w.frame.regs) + rest)
    ensures n > 0 && Reaches(img.code, Machine(w.pc, s), n, Machine(Resumed(img, w, v).pc, s'))
    ensures s'.stack == RegValues(Cur(img, Resumed(img, w, v)), Resumed(img, w, v).frame.regs) + rest
    ensures s'.storage == s.storage
    ensures StoreOf(img, w).value.1 == match ResultSlot(img, w) {
              case Some(d) => AfterStore(d, AllocOf(img, w), EntryOf(img, w), w.blockStack) case None => w.blockStack }
    ensures s'.memory == match (ResultSlot(img, w), v) {
              case (Some(d), Some(x)) => MemoryAfter(d, x, ContextIn(img, w.frame.fn), s.memory) case _ => s.memory }
  {
    hide StoreResult, Reaches, RegValues, Run, MemoryAfter, Shape, AfterStore, CodeAt;
    var store := StoreOf(img, w).value;
    StoreResultRun(ResultSlot(img, w), v, ContextIn(img, w.frame.fn), EntryOf(img, w), w.blockStack, store,
                   w.frame.regs, Resumed(img, w, v).frame.regs, rest, Labels(img.code), s);
    s' := Run(store.0, Labels(img.code), s).value;
    n := LandThenRun(img.code, w.pc, store.0, s, s');
  }

  lemma ResumedHomes(img: Image, w: Act, v: Option<Word>, memory: map<nat, Word>, memory': map<nat, Word>)
    requires Good(img) && Located(img, w) && w.frame.index < |BlockOf(img, w).instructions| && CurrentInst(img, w).Call?
    requires v.Some? == ResultSlot(img, w).Some? && StoreOf(img, w).Ok?
    requires Shape(Cur(img, w), AllocOf(img, w))
    requires AllHome(LiveAt(img, w, w.frame.index + 1) - Defs(CurrentInst(img, w)), img, w, memory)
    requires StoreOf(img, w).value.1 == match ResultSlot(img, w) {
               case Some(d) => AfterStore(d, AllocOf(img, w), EntryOf(img, w), w.blockStack) case None => w.blockStack }
    requires memory' == match (ResultSlot(img, w), v) {
               case (Some(d), Some(x)) => MemoryAfter(d, x, ContextIn(img, w.frame.fn), memory) case _ => memory }
    ensures var a' := Resumed(img, w, v);
            && Shape(Cur(img, a'), AllocOf(img, a'))
            && AllHome(LiveAt(img, a', a'.frame.index), img, a', memory')
            && OnlyFrame(img, w.frame.fn, memory, memory')
  {
    hide StoreResult, LiveBefore;
    var a' := Resumed(img, w, v);
    var live := LiveAt(img, w, w.frame.index + 1);
    LiveAtBelow(img, w, w.frame.index + 1);
    if ResultSlot(img, w).Some? {
      var d := ResultSlot(img, w).value;
      DestinationBelow(img, w, d);
      StoreKeepsShape(d, AllocOf(img, w), EntryOf(img, w), w.blockStack);
      assert live - Defs(CurrentInst(img, w)) == live - {d};
      StoreKeepsHomes(img, w, d, v.value, a', memory, memory', live);
    } else {
      assert live - Defs(CurrentInst(img, w)) == live;
    }
  }

  // ---------------------------------------------------------------------------
  // One source step
  // ---------------------------------------------------------------------------

  lemma StackOfTop(img: Image, acts: seq<Act>, a': Act, cont: Word, base: seq<Word>)
    requires acts != [] && forall i :: 0 <= i < |acts| ==> acts[i].frame.fn in img.units
    requires a'.frame.fn in img.units
    ensures FullStack(img, [a'] + acts[1..], cont, base) ==
            RegValues(Cur(img, a'), a'.frame.regs)
            + ([ReturnWord(img, acts[1..], cont)] + FullStack(img, acts[1..], cont, base))
  {
    assert ([a'] + acts[1..])[1..] == acts[1..];
  }

  lemma FramesOfTop(acts: seq<Act>, a': Act)
    requires acts != []
    ensures Frames([a'] + acts[1..]) == [a'.frame] + Frames(acts)[1..]
  {
  }

  /** The stack under the running activation. */
  ghost function Under(img: Image, acts: seq<Act>, cont: Word, base: seq<Word>): seq<Word>
    requires acts != [] && forall i :: 0 <= i < |acts| ==> acts[i].frame.fn in img.units
  {
    [ReturnWord(img, acts[1..], cont)] + FullStack(img, acts[1..], cont, base)
  }

  /** A step of the running activation that leaves the others alone keeps the relation. */
  lemma TopStepRelated(
      img: Image, acts: seq<Act>, a': Act, cont: Word, base: seq<Word>, storage: map<Word, Word>, m: Machine, s': Local)
    requires Good(img) && Related(img, acts, cont, base, storage, m)
    requires a'.frame.fn == acts[0].frame.fn && TopOk(img, a', s'.memory)
    requires s'.stack == RegValues(Cur(img, a'), a'.frame.regs) + Under(img, acts, cont, base)
    requires OnlyFrame(img, a'.frame.fn, m.local.memory, s'.memory)
    ensures Related(img, [a'] + acts[1..], cont, base, s'.storage, Machine(a'.pc, s'))
  {
    hide TopOk, OnlyFrame;
    CallersKept(img, acts, a', m.local.memory, s'.memory);
    StackOfTop(img, acts, a', cont, base);
  }

  lemma SameMemory(img: Image, fn: FnId, memory: map<nat, Word>)
    ensures OnlyFrame(img, fn, memory, memory)
  {
  }

  /** The source side of an instruction, a jump or a branch. */
  lemma SourceLocal(img: Image, a: Act, below: seq<Frame>, storage: map<Word, Word>)
    requires Located(img, a)
    ensures var t := BlockOf(img, a).terminator;
            var c := SourceStep(ProgramOf(img.units), Running([a.frame] + below, storage));
            if a.frame.index < |BlockOf(img, a).instructions| then
              var inst := CurrentInst(img, a);
              !inst.Call? ==>
                c == Running([a.frame.(index := a.frame.index + 1, regs := ExecuteRegs(inst, a.frame.regs, storage))]
                             + below, ExecuteStorage(inst, a.frame.regs, storage))
            else if t.Jump? then
              c == Running([a.frame.(block := t.target, index := 0)] + below, storage)
            else if t.Branch? then
              c == Running([a.frame.(block := if OperandValue(a.frame.regs, t.condition) != 0 then t.thenBlock
                  else t.elseBlock,
                                     index := 0)] + below, storage)
            else true
  {
  }

  /** An instruction, a jump or a branch. */
  lemma LocalStep(img: Image, acts: seq<Act>, cont: Word, base: seq<Word>, storage: map<Word, Word>, m: Machine)
    returns (acts': seq<Act>, m': Machine, n: nat)
    requires Good(img) && Related(img, acts, cont, base, storage, m) && Located(img, acts[0])
    requires var insts := BlockOf(img, acts[0]).instructions;
             if acts[0].frame.index < |insts| then !CurrentInst(img, acts[0]).Call?
             else BlockOf(img, acts[0]).terminator.Jump? || BlockOf(img, acts[0]).terminator.Branch?
    ensures n > 0 && Reaches(img.code, m, n, m')
    ensures SourceStep(ProgramOf(img.units), Running(Frames(acts), storage)) == Running(Frames(acts'), m'.local.storage)
    ensures Related(img, acts', cont, base, m'.local.storage, m')
    ensures OnlyFrame(img, acts[0].frame.fn, m.local.memory, m'.local.memory)
    ensures |acts'| == |acts| && acts'[|acts| - 1].frame.fn == acts[|acts| - 1].frame.fn
  {
    var a, s := acts[0], m.local;
    RunningTop(img, acts, cont, base, storage, m);
    hide Reaches, TopOk, OnlyFrame, FullStack, RegValues, SourceStep, Good, Under, Cur, Related, ChainOk, BlockOf,
        CurrentInst, Located;
    var a', s';
    a', s', n := TopSim(img, a, Frames(acts)[1..], storage, Under(img, acts, cont, base), s);
    SourceOfTop(img, acts, storage);
    TopStepRelated(img, acts, a', cont, base, storage, m, s');
    acts', m' := [a'] + acts[1..], Machine(a'.pc, s');
    FramesOfTop(acts, a');
  }

  lemma SourceOfTop(img: Image, acts: seq<Act>, storage: map<Word, Word>)
    requires acts != []
    ensures Frames(acts) == [acts[0].frame] + Frames(acts)[1..]
  {
  }

  /** What the relation says of the running activation. */
  lemma RunningTop(img: Image, acts: seq<Act>, cont: Word, base: seq<Word>, storage: map<Word, Word>, m: Machine)
    requires Related(img, acts, cont, base, storage, m)
    ensures TopOk(img, acts[0], m.local.memory) && m.pc == acts[0].pc && m.local.storage == storage
    ensures m.local.stack == RegValues(Cur(img, acts[0]), acts[0].frame.regs) + Under(img, acts, cont, base)
  {
    hide TopOk, RegValues, Cur;
    StackOfTop(img, acts, acts[0], cont, base);
    assert acts == [acts[0]] + acts[1..];
  }

  /** One step of the running activation, in both machines. */
  lemma TopSim(img: Image, a: Act, below: seq<Frame>, storage: map<Word, Word>, rest: seq<Word>, s: Local)
    returns (a': Act, s': Local, n: nat)
    requires Good(img) && TopOk(img, a, s.memory) && Located(img, a) && s.storage == storage
    requires var insts := BlockOf(img, a).instructions;
             if a.frame.index < |insts| then !CurrentInst(img, a).Call?
             else BlockOf(img, a).terminator.Jump? || BlockOf(img, a).terminator.Branch?
    requires s.stack == RegValues(Cur(img, a), a.frame.regs) + rest
    ensures n > 0 && Reaches(img.code, Machine(a.pc, s), n, Machine(a'.pc, s'))
    ensures TopOk(img, a', s'.memory) && a'.frame.fn == a.frame.fn
    ensures s'.stack == RegValues(Cur(img, a'), a'.frame.regs) + rest
    ensures OnlyFrame(img, a.frame.fn, s.memory, s'.memory)
    ensures SourceStep(ProgramOf(img.units), Running([a.frame] + below, storage))
        == Running([a'.frame] + below, s'.storage)
  {
    hide Reaches, TopOk, OnlyFrame, RegValues, SourceStep, Good, Cur;
    SourceLocal(img, a, below, storage);
    if a.frame.index < |BlockOf(img, a).instructions| {
      a', s', n := InstructionSim(img, a, rest, s);
    } else if BlockOf(img, a).terminator.Jump? {
      a', s', n := JumpSim(img, a, rest, s);
      SameMemory(img, a.frame.fn, s.memory);
    } else {
      a', s', n := BranchSim(img, a, rest, s);
      SameMemory(img, a.frame.fn, s.memory);
    }
  }
}
