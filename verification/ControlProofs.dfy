/** Shuffles at block edges and transfers of control, on the machine. */
module ControlProofs {
  import opened Wrappers
  import opened Sequences
  import opened Words
  import opened Evm
  import opened Lowered
  import opened Semantics
  import opened Shuffler
  import opened Codegen
  import opened InstructionProofs

  // ---------------------------------------------------------------------------
  // Shuffles between layouts
  // ---------------------------------------------------------------------------

  lemma PresentIndex(slots: seq<Slot>, s: Slot)
    ensures FirstIndex(Present(slots), Some(s)) == FirstIndex(slots, s)
  {
    var present := Present(slots);
    if s in slots {
      var i := FirstIndex(slots, s).value;
      assert forall k :: 0 <= k < i ==> slots[..i][k] == slots[k];
      assert forall k :: 0 <= k < i ==> present[..i][k] == Some(slots[k]);
      FirstIndexIs(present, Some(s), i);
    }
  }

  lemma HomeInLayout(cur: seq<Slot>, regs: Regs, rest: seq<Word>, base: nat, s: Local, t: Slot)
    requires s.stack == RegValues(cur, regs) + rest
    ensures Home(Present(cur), s, base, t) ==
            if t in cur then Read(regs, t) else Load(s.memory, MemoryOffset(base, t))
  {
    PresentIndex(cur, t);
    if t in cur {
      var i := FirstIndex(cur, t).value;
      assert s.stack[i] == RegValues(cur, regs)[i];
    }
  }

  lemma LayoutConsistent(cur: seq<Slot>, regs: Regs, rest: seq<Word>, base: nat, s: Local)
    requires s.stack == RegValues(cur, regs) + rest
    ensures Consistent(Present(cur), s, base)
  {
    forall i | 0 <= i < |cur| ensures s.stack[i] == Home(Present(cur), s, base, cur[i]) {
      HomeInLayout(cur, regs, rest, base, s, cur[i]);
      assert s.stack[i] == RegValues(cur, regs)[i];
    }
  }

  /** The word a shuffle from `cur` delivers for a slot. */
  ghost function Delivered(cur: seq<Slot>, regs: Regs, base: nat, memory: map<nat, Word>, t: Slot): Word {
    if t in cur then Read(regs, t) else Load(memory, MemoryOffset(base, t))
  }

  ghost function DeliveredFrom(cur: seq<Slot>, regs: Regs, base: nat, memory: map<nat, Word>): Slot -> Word {
    t => Delivered(cur, regs, base, memory, t)
  }

  /** A shuffle delivers each target slot from the layout if it is there, and from memory if not. */
  lemma ShuffleDelivers(
      cur: seq<Slot>, target: seq<Slot>, base: nat, regs: Regs, rest: seq<Word>, labels: Label -> Word, s: Local)
    requires s.stack == RegValues(cur, regs) + rest
    requires ShuffleCode(cur, target, base).Ok? && ShuffleCode(cur, target, base).value.whole
    ensures Run(ShuffleCode(cur, target, base).value.code, labels, s)
         == Some(s.(stack := Values(target, DeliveredFrom(cur, regs, base, s.memory)) + rest))
  {
    var h := DeliveredFrom(cur, regs, base, s.memory);
    forall t ensures h(t) == Home(Present(cur), s, base, t) {
      HomeInLayout(cur, regs, rest, base, s, t);
    }
    LayoutConsistent(cur, regs, rest, base, s);
    ShuffleRun(Present(cur), target, base, labels, s, h);
    assert s.stack[|cur|..] == rest;
  }

  /** If every target slot can be found, the target's register values replace the current ones. */
  lemma ShuffleMoves(
      cur: seq<Slot>, target: seq<Slot>, base: nat, regs: Regs, rest: seq<Word>, labels: Label -> Word, s: Local)
    requires s.stack == RegValues(cur, regs) + rest
    requires ShuffleCode(cur, target, base).Ok? && ShuffleCode(cur, target, base).value.whole
    requires forall t :: t in target ==> Findable(t, cur, regs, base, s.memory)
    ensures Run(ShuffleCode(cur, target, base).value.code, labels, s)
         == Some(s.(stack := RegValues(target, regs) + rest))
  {
    ShuffleDelivers(cur, target, base, regs, rest, labels, s);
    var h := DeliveredFrom(cur, regs, base, s.memory);
    forall i | 0 <= i < |target| ensures Values(target, h)[i] == RegValues(target, regs)[i] {
      assert target[i] in target && Findable(target[i], cur, regs, base, s.memory);
    }
    assert Values(target, h) == RegValues(target, regs);
  }

  /**
   * The fall-through of a branch starts from the then-layout. It delivers the
   * else-layout exactly if every slot outside the then-layout has a memory copy
   * of its value.
   */
  lemma ElseEdgeExact(
      thenLayout: seq<Slot>, elseLayout: seq<Slot>, base: nat, regs: Regs, rest: seq<Word>,
      labels: Label -> Word, s: Local)
    requires s.stack == RegValues(thenLayout, regs) + rest
    requires ShuffleCode(thenLayout, elseLayout, base).Ok? && ShuffleCode(thenLayout, elseLayout, base).value.whole
    ensures var wanted := s.(stack := RegValues(elseLayout, regs) + rest);
            Run(ShuffleCode(thenLayout, elseLayout, base).value.code, labels, s) == Some(wanted) <==>
            forall t :: t in elseLayout && t !in thenLayout ==>
              Load(s.memory, MemoryOffset(base, t)) == Read(regs, t)
  {
    ShuffleDelivers(thenLayout, elseLayout, base, regs, rest, labels, s);
    var got := Values(elseLayout, DeliveredFrom(thenLayout, regs, base, s.memory));
    if got + rest == RegValues(elseLayout, regs) + rest {
      forall t | t in elseLayout && t !in thenLayout
        ensures Load(s.memory, MemoryOffset(base, t)) == Read(regs, t)
      {
        var i :| 0 <= i < |elseLayout| && elseLayout[i] == t;
        assert (got + rest)[i] == (RegValues(elseLayout, regs) + rest)[i];
      }
    }
    if forall t :: t in elseLayout && t !in thenLayout ==> Load(s.memory, MemoryOffset(base, t)) == Read(regs, t) {
      assert got == RegValues(elseLayout, regs);
    }
  }

  // ---------------------------------------------------------------------------
  // Jumps
  // ---------------------------------------------------------------------------

  /** After `n` steps from `m` the machine goes on exactly as it does from `m'`. */
  ghost predicate Reaches(code: seq<Asm>, m: Machine, n: nat, m': Machine) {
    forall k: nat {:trigger Iterate(code, m, k)} :: k >= n ==> Iterate(code, m, k) == Iterate(code, m', k - n)
  }

  lemma ReachesIterates(code: seq<Asm>, m: Machine, n: nat, m': Machine)
    requires Reaches(code, m, n, m')
    ensures Iterate(code, m, n) == Some(m')
  {
    assert Iterate(code, m, n) == Iterate(code, m', 0);
  }

  lemma Chain(code: seq<Asm>, a: Machine, n: nat, b: Machine, k: nat, c: Machine)
    requires Reaches(code, a, n, b) && Reaches(code, b, k, c)
    ensures Reaches(code, a, n + k, c)
  {
    forall i: nat | i >= n + k ensures Iterate(code, a, i) == Iterate(code, c, i - (n + k)) {
      assert Iterate(code, a, i) == Iterate(code, b, i - n);
      assert Iterate(code, b, i - n) == Iterate(code, c, i - n - k);
    }
  }

  lemma OneStep(code: seq<Asm>, a: Machine, b: Machine)
    requires Step(code, a) == Some(b)
    ensures Reaches(code, a, 1, b)
  {
  }

  lemma RunReaches(code: seq<Asm>, pc: nat, part: seq<Asm>, s: Local, s': Local)
    requires CodeAt(code, pc, part) && Run(part, Labels(code), s) == Some(s')
    ensures Reaches(code, Machine(pc, s), |part|, Machine(pc + |part|, s'))
  {
    RunIsSteps(code, pc, part, s);
    var m, m', n := Machine(pc, s), Machine(pc + |part|, s'), |part|;
    forall k: nat | k >= n ensures Iterate(code, m, k) == Iterate(code, m', k - n) {
      IterateAdd(code, m, n, k - n);
    }
  }

  lemma JumpReaches(code: seq<Asm>, pc: nat, l: Label, j: nat, s: Local) returns (n: nat)
    requires CodeAt(code, pc, JumpCode(l))
    requires JumpTarget(code, LabelWord(code, l)) == Some(j)
    ensures Reaches(code, Machine(pc, s), n, Machine(j, s))
  {
    CodeAtHead(code, pc, JumpCode(l));
    CodeAtHead(code, pc + 1, JumpCode(l)[1..]);
    var pushed := s.(stack := [LabelWord(code, l)] + s.stack);
    assert pushed.stack[1..] == s.stack;
    OneStep(code, Machine(pc, s), Machine(pc + 1, pushed));
    OneStep(code, Machine(pc + 1, pushed), Machine(j, s));
    Chain(code, Machine(pc, s), 1, Machine(pc + 1, pushed), 1, Machine(j, s));
    n := 2;
  }

  lemma BranchReaches(code: seq<Asm>, pc: nat, l: Label, j: nat, w: Word, rest: seq<Word>, s: Local) returns (n: nat)
    requires CodeAt(code, pc, BranchCode(l)) && s.stack == [w] + rest
    requires JumpTarget(code, LabelWord(code, l)) == Some(j)
    ensures Reaches(code, Machine(pc, s), n, Machine(if w != 0 then j else pc + 2, s.(stack := rest)))
  {
    CodeAtHead(code, pc, BranchCode(l));
    CodeAtHead(code, pc + 1, BranchCode(l)[1..]);
    var pushed := s.(stack := [LabelWord(code, l)] + s.stack);
    assert pushed.stack[2..] == rest;
    var next := Machine(if w != 0 then j else pc + 2, s.(stack := rest));
    OneStep(code, Machine(pc, s), Machine(pc + 1, pushed));
    OneStep(code, Machine(pc + 1, pushed), next);
    Chain(code, Machine(pc, s), 1, Machine(pc + 1, pushed), 1, next);
    n := 2;
  }

  /** A return jump: `[value, continuation]` becomes `[value]` at the continuation. */
  lemma ReturnReaches(code: seq<Asm>, pc: nat, j: nat, w: Word, d: Word, rest: seq<Word>, s: Local)
    returns (n: nat)
    requires CodeAt(code, pc, [Do(SWAP(1)), Do(JUMP)]) && s.stack == [w, d] + rest
    requires JumpTarget(code, d) == Some(j)
    ensures Reaches(code, Machine(pc, s), n, Machine(j, s.(stack := [w] + rest)))
  {
    CodeAtHead(code, pc, [Do(SWAP(1)), Do(JUMP)]);
    CodeAtHead(code, pc + 1, [Do(SWAP(1)), Do(JUMP)][1..]);
    var swapped := s.(stack := [d, w] + rest);
    assert s.stack[0 := d][1 := w] == swapped.stack;
    assert swapped.stack[1..] == [w] + rest;
    OneStep(code, Machine(pc, s), Machine(pc + 1, swapped));
    OneStep(code, Machine(pc + 1, swapped), Machine(j, s.(stack := [w] + rest)));
    Chain(code, Machine(pc, s), 1, Machine(pc + 1, swapped), 1, Machine(j, s.(stack := [w] + rest)));
    n := 2;
  }

  lemma PlainJumpReaches(code: seq<Asm>, pc: nat, j: nat, d: Word, rest: seq<Word>, s: Local)
    requires CodeAt(code, pc, [Do(JUMP)]) && s.stack == [d] + rest
    requires JumpTarget(code, d) == Some(j)
    ensures Reaches(code, Machine(pc, s), 1, Machine(j, s.(stack := rest)))
  {
    CodeAtHead(code, pc, [Do(JUMP)]);
    assert s.stack[1..] == rest;
    OneStep(code, Machine(pc, s), Machine(j, s.(stack := rest)));
  }

  lemma LandingReaches(code: seq<Asm>, pc: nat, s: Local)
    requires pc < |code| && code[pc] == Do(JUMPDEST)
    ensures Reaches(code, Machine(pc, s), 1, Machine(pc + 1, s))
  {
    OneStep(code, Machine(pc, s), Machine(pc + 1, s));
  }

  // Straight-line code followed by a transfer of control.

  lemma RunThenJump(code: seq<Asm>, pc: nat, part: seq<Asm>, l: Label, j: nat, s: Local, s1: Local)
    returns (n: nat)
    requires CodeAt(code, pc, part + JumpCode(l)) && Run(part, Labels(code), s) == Some(s1)
    requires JumpTarget(code, LabelWord(code, l)) == Some(j)
    ensures Reaches(code, Machine(pc, s), n, Machine(j, s1))
  {
    hide Run, Reaches, CodeAt;
    CodeAtSplit(code, pc, part, JumpCode(l));
    RunReaches(code, pc, part, s, s1);
    var k := JumpReaches(code, pc + |part|, l, j, s1);
    n := |part| + k;
    Chain(code, Machine(pc, s), |part|, Machine(pc + |part|, s1), k, Machine(j, s1));
  }

  lemma RunThenBranch(
      code: seq<Asm>, pc: nat, part: seq<Asm>, l: Label, tail: seq<Asm>, j: nat, w: Word, under: seq<Word>,
      s: Local, s1: Local)
    returns (n: nat)
    requires CodeAt(code, pc, part + BranchCode(l) + tail) && Run(part, Labels(code), s) == Some(s1)
    requires s1.stack == [w] + under
    requires JumpTarget(code, LabelWord(code, l)) == Some(j)
    ensures Reaches(code, Machine(pc, s), n,
                    Machine(if w != 0 then j else pc + |part| + 2, s1.(stack := under)))
    ensures CodeAt(code, pc + |part| + 2, tail)
  {
    hide Run, Reaches, CodeAt;
    CodeAtSplit(code, pc, part + BranchCode(l), tail);
    CodeAtSplit(code, pc, part, BranchCode(l));
    RunReaches(code, pc, part, s, s1);
    var k := BranchReaches(code, pc + |part|, l, j, w, under, s1);
    n := |part| + k;
    Chain(code, Machine(pc, s), |part|, Machine(pc + |part|, s1), k,
          Machine(if w != 0 then j else pc + |part| + 2, s1.(stack := under)));
  }

  lemma RunThenReturn(
      code: seq<Asm>, pc: nat, part: seq<Asm>, j: nat, w: Word, d: Word, rest: seq<Word>, s: Local, s1: Local)
    returns (n: nat)
    requires CodeAt(code, pc, part + [Do(SWAP(1)), Do(JUMP)]) && Run(part, Labels(code), s) == Some(s1)
    requires s1.stack == [w, d] + rest
    requires JumpTarget(code, d) == Some(j)
    ensures Reaches(code, Machine(pc, s), n, Machine(j, s1.(stack := [w] + rest)))
  {
    hide Run, Reaches, CodeAt;
    CodeAtSplit(code, pc, part, [Do(SWAP(1)), Do(JUMP)]);
    RunReaches(code, pc, part, s, s1);
    var k := ReturnReaches(code, pc + |part|, j, w, d, rest, s1);
    n := |part| + k;
    Chain(code, Machine(pc, s), |part|, Machine(pc + |part|, s1), k, Machine(j, s1.(stack := [w] + rest)));
  }

  lemma RunThenPlainJump(code: seq<Asm>, pc: nat, part: seq<Asm>, j: nat, d: Word, rest: seq<Word>, s: Local, s1: Local)
    requires CodeAt(code, pc, part + [Do(JUMP)]) && Run(part, Labels(code), s) == Some(s1)
    requires s1.stack == [d] + rest
    requires JumpTarget(code, d) == Some(j)
    ensures Reaches(code, Machine(pc, s), |part| + 1, Machine(j, s1.(stack := rest)))
  {
    hide Run, Reaches, CodeAt;
    CodeAtSplit(code, pc, part, [Do(JUMP)]);
    RunReaches(code, pc, part, s, s1);
    PlainJumpReaches(code, pc + |part|, j, d, rest, s1);
    Chain(code, Machine(pc, s), |part|, Machine(pc + |part|, s1), 1, Machine(j, s1.(stack := rest)));
  }

  // ---------------------------------------------------------------------------
  // Terminators, on the machine
  // ---------------------------------------------------------------------------

  /** The two exits of a branch. */
  lemma BranchTransfer(
      code: seq<Asm>, pc: nat, test: seq<Asm>, move: seq<Asm>, thenLabel: Label, elseLabel: Label,
      jThen: nat, jElse: nat, w: Word, s: Local, s2: Local, s3: Local)
    returns (n: nat)
    requires CodeAt(code, pc, test + BranchCode(thenLabel) + (move + JumpCode(elseLabel)))
    requires Run(test, Labels(code), s) == Some(s2.(stack := [w] + s2.stack))
    requires Run(move, Labels(code), s2) == Some(s3)
    requires JumpTarget(code, LabelWord(code, thenLabel)) == Some(jThen)
    requires JumpTarget(code, LabelWord(code, elseLabel)) == Some(jElse)
    ensures w != 0 ==> Reaches(code, Machine(pc, s), n, Machine(jThen, s2))
    ensures w == 0 ==> Reaches(code, Machine(pc, s), n, Machine(jElse, s3))
  {
    hide Run, Reaches, CodeAt;
    n := RunThenBranch(code, pc, test, thenLabel, move + JumpCode(elseLabel), jThen, w, s2.stack,
                       s, s2.(stack := [w] + s2.stack));
    if w == 0 {
      var k := RunThenJump(code, pc + |test| + 2, move, elseLabel, jElse, s2, s3);
      Chain(code, Machine(pc, s), n, Machine(pc + |test| + 2, s2), k, Machine(jElse, s3));
      n := n + k;
    }
  }

  /** Every slot of a layout can be found. */
  ghost predicate LayoutFindable(target: seq<Slot>, cur: seq<Slot>, regs: Regs, base: nat, memory: map<nat, Word>) {
    forall t :: t in target ==> Findable(t, cur, regs, base, memory)
  }

  lemma JumpMachine(
      code: seq<Asm>, pc: nat, cur: seq<Slot>, target: seq<Slot>, base: nat, e: Emitted, l: Label, j: nat,
      regs: Regs, rest: seq<Word>, s: Local)
    returns (n: nat)
    requires ShuffleCode(cur, target, base) == Ok(e) && e.whole
    requires CodeAt(code, pc, e.code + JumpCode(l))
    requires JumpTarget(code, LabelWord(code, l)) == Some(j)
    requires s.stack == RegValues(cur, regs) + rest
    requires LayoutFindable(target, cur, regs, base, s.memory)
    ensures Reaches(code, Machine(pc, s), n, Machine(j, s.(stack := RegValues(target, regs) + rest)))
  {
    ShuffleMoves(cur, target, base, regs, rest, Labels(code), s);
    n := RunThenJump(code, pc, e.code, l, j, s, s.(stack := RegValues(target, regs) + rest));
  }

  /** Before the conditional jump: the condition on top of the then-layout. */
  lemma ConditionRun(
      condition: Operand, cur: seq<Slot>, thenLayout: seq<Slot>, base: nat, test: Emitted,
      regs: Regs, rest: seq<Word>, labels: Label -> Word, s: Local)
    requires ConditionCode(condition, cur, thenLayout, base) == Ok(test) && test.whole
    requires s.stack == RegValues(cur, regs) + rest
    requires LayoutFindable(thenLayout, cur, regs, base, s.memory)
    requires condition.Location? ==> Findable(condition.slot, cur, regs, base, s.memory)
    ensures Run(test.code, labels, s)
         == Some(s.(stack := [OperandValue(regs, condition)] + (RegValues(thenLayout, regs) + rest)))
  {
    hide Run, ShuffleCode;
    match condition
    case Location(slot) =>
      ShuffleMoves(cur, [slot] + thenLayout, base, regs, rest, labels, s);
      assert RegValues([slot] + thenLayout, regs) == [Read(regs, slot)] + RegValues(thenLayout, regs);
      assert [Read(regs, slot)] + RegValues(thenLayout, regs) + rest
          == [Read(regs, slot)] + (RegValues(thenLayout, regs) + rest);
    case Literal(c) =>
      var e := ShuffleCode(cur, thenLayout, base).value;
      var s1 := s.(stack := RegValues(thenLayout, regs) + rest);
      ShuffleMoves(cur, thenLayout, base, regs, rest, labels, s);
      ConstantRun(c, labels, s1);
      RunAppend(e.code, ConstantCode(c).value, labels, s);
  }

  lemma ConstantRun(c: Constant, labels: Label -> Word, s: Local)
    requires ConstantCode(c).Ok?
    ensures Run(ConstantCode(c).value, labels, s) == Some(s.(stack := [ConstantWord(c)] + s.stack))
  {
    RunOne(ConstantCode(c).value[0], labels, s);
  }

  /** A branch reaches the chosen successor with that successor's layout. */
  lemma BranchMachine(
      code: seq<Asm>, pc: nat, condition: Operand, cur: seq<Slot>, thenLayout: seq<Slot>, elseLayout: seq<Slot>,
      base: nat, test: Emitted, e: Emitted, thenLabel: Label, elseLabel: Label, jThen: nat, jElse: nat,
      regs: Regs, rest: seq<Word>, s: Local)
    returns (n: nat)
    requires ConditionCode(condition, cur, thenLayout, base) == Ok(test) && test.whole
    requires ShuffleCode(thenLayout, elseLayout, base) == Ok(e) && e.whole
    requires CodeAt(code, pc, test.code + BranchCode(thenLabel) + (e.code + JumpCode(elseLabel)))
    requires JumpTarget(code, LabelWord(code, thenLabel)) == Some(jThen)
    requires JumpTarget(code, LabelWord(code, elseLabel)) == Some(jElse)
    requires s.stack == RegValues(cur, regs) + rest
    requires LayoutFindable(thenLayout, cur, regs, base, s.memory)
    requires LayoutFindable(elseLayout, thenLayout, regs, base, s.memory)
    requires condition.Location? ==> Findable(condition.slot, cur, regs, base, s.memory)
    ensures OperandValue(regs, condition) != 0 ==>
              Reaches(code, Machine(pc, s), n, Machine(jThen, s.(stack := RegValues(thenLayout, regs) + rest)))
    ensures OperandValue(regs, condition) == 0 ==>
              Reaches(code, Machine(pc, s), n, Machine(jElse, s.(stack := RegValues(elseLayout, regs) + rest)))
  {
    var s2 := s.(stack := RegValues(thenLayout, regs) + rest);
    ConditionRun(condition, cur, thenLayout, base, test, regs, rest, Labels(code), s);
    ShuffleMoves(thenLayout, elseLayout, base, regs, rest, Labels(code), s2);
    n := BranchTransfer(code, pc, test.code, e.code, thenLabel, elseLabel, jThen, jElse, OperandValue(regs, condition),
                        s, s2, s.(stack := RegValues(elseLayout, regs) + rest));
  }

  /** The value a return hands over, as a piece of stack. */
  function ReturnStack(value: Option<Word>): seq<Word> {
    match value case Some(w) => [w] case None => []
  }

  function ReturnValue(regs: Regs, value: Option<Operand>): Option<Word> {
    match value case Some(o) => Some(OperandValue(regs, o)) case None => None
  }

  /** A return leaves its value on the untouched stack of the caller, at the continuation. */
  lemma ReturnMachine(
      code: seq<Asm>, pc: nat, value: Option<Operand>, ctx: Context, entry: seq<Slot>, bs: seq<Slot>, e: Emitted,
      j: nat,
      d: Word, regs: Regs, rest: seq<Word>, s: Local)
    returns (n: nat)
    requires TerminatorCode(Return(value), ctx, entry, bs) == Ok(e) && e.whole
    requires CodeAt(code, pc, e.code)
    requires JumpTarget(code, d) == Some(j)
    requires s.stack == RegValues(bs + entry, regs) + ([d] + rest)
    requires value.Some? && value.value.Location? ==> Findable(value.value.slot, bs + entry, regs, ctx.base, s.memory)
    ensures Reaches(code, Machine(pc, s), n, Machine(j, s.(stack := ReturnStack(ReturnValue(regs, value)) + rest)))
  {
    var cur, labels := bs + entry, Labels(code);
    match value
    case None =>
      var m := ShuffleCode(cur, [], ctx.base).value;
      ShuffleMoves(cur, [], ctx.base, regs, [d] + rest, labels, s);
      assert RegValues([], regs) + ([d] + rest) == [d] + rest;
      n := |m.code| + 1;
      RunThenPlainJump(code, pc, m.code, j, d, rest, s, s.(stack := [d] + rest));
      assert [] + rest == rest;
    case Some(o) =>
      n := ReturnValueMachine(code, pc, o, ctx, entry, bs, e, j, d, regs, rest, s);
  }

  lemma ReturnValueMachine(
      code: seq<Asm>, pc: nat, o: Operand, ctx: Context, entry: seq<Slot>, bs: seq<Slot>, e: Emitted, j: nat,
      d: Word, regs: Regs, rest: seq<Word>, s: Local)
    returns (n: nat)
    requires TerminatorCode(Return(Some(o)), ctx, entry, bs) == Ok(e) && e.whole
    requires CodeAt(code, pc, e.code)
    requires JumpTarget(code, d) == Some(j)
    requires s.stack == RegValues(bs + entry, regs) + ([d] + rest)
    requires o.Location? ==> Findable(o.slot, bs + entry, regs, ctx.base, s.memory)
    ensures Reaches(code, Machine(pc, s), n, Machine(j, s.(stack := [OperandValue(regs, o)] + rest)))
  {
    var w := OperandValue(regs, o);
    var push := ReturnPush(o, bs + entry, ctx.base, regs, d, rest, Labels(code), s);
    n := RunThenReturn(code, pc, push, j, w, d, rest, s, s.(stack := [w, d] + rest));
  }

  /** Everything is drained but the continuation and, on top of it, the value. */
  lemma ReturnPush(
      o: Operand, cur: seq<Slot>, base: nat, regs: Regs, d: Word, rest: seq<Word>, labels: Label -> Word, s: Local)
    returns (push: seq<Asm>)
    requires match o
             case Location(slot) => ShuffleCode(cur, [slot], base).Ok? && ShuffleCode(cur, [slot], base).value.whole
             case Literal(c) =>
               && ConstantCode(c).Ok? && ShuffleCode(cur, [], base).Ok?
               && ShuffleCode(cur, [], base).value.whole
    requires s.stack == RegValues(cur, regs) + ([d] + rest)
    requires o.Location? ==> Findable(o.slot, cur, regs, base, s.memory)
    ensures push == match o
                    case Location(slot) => ShuffleCode(cur, [slot], base).value.code
                    case Literal(c) => ShuffleCode(cur, [], base).value.code + ConstantCode(c).value
    ensures Run(push, labels, s) == Some(s.(stack := [OperandValue(regs, o), d] + rest))
  {
    hide Run, ShuffleCode;
    var w := OperandValue(regs, o);
    match o
    case Location(slot) =>
      push := ShuffleCode(cur, [slot], base).value.code;
      ShuffleMoves(cur, [slot], base, regs, [d] + rest, labels, s);
      assert RegValues([slot], regs) + ([d] + rest) == [w, d] + rest;
    case Literal(c) =>
      var m := ShuffleCode(cur, [], base).value;
      push := m.code + ConstantCode(c).value;
      ShuffleMoves(cur, [], base, regs, [d] + rest, labels, s);
      assert RegValues([], regs) + ([d] + rest) == [d] + rest;
      ConstantRun(c, labels, s.(stack := [d] + rest));
      RunAppend(m.code, ConstantCode(c).value, labels, s);
      assert [w] + ([d] + rest) == [w, d] + rest;
  }
}
