/** What the code of an operand, an instruction and a result store does to the machine. */
module InstructionProofs {
  import opened Wrappers
  import opened Sequences
  import opened Words
  import opened Evm
  import opened Lowered
  import opened Semantics
  import opened Shuffler
  import opened Codegen

  ghost function Valuation(regs: Regs): Slot -> Word {
    s => Read(regs, s)
  }

  /** The register values of some slots, in order. */
  ghost function RegValues(slots: seq<Slot>, regs: Regs): (r: seq<Word>)
    ensures |r| == |slots|
    ensures forall i :: 0 <= i < |slots| ==> r[i] == Read(regs, slots[i])
  {
    Values(slots, Valuation(regs))
  }

  /** A slot's value can be found: on the stack, or in its memory word. */
  ghost predicate Findable(s: Slot, cur: seq<Slot>, regs: Regs, base: nat, memory: map<nat, Word>) {
    s in cur || Load(memory, MemoryOffset(base, s)) == Read(regs, s)
  }

  /** A block's part of the stack: no slot twice, and only slots assigned to the stack. */
  ghost predicate Shape(cur: seq<Slot>, alloc: Allocation) {
    Distinct(cur) && forall s :: s in cur ==> OnStack(alloc, s)
  }

  // ---------------------------------------------------------------------------
  // Operands
  // ---------------------------------------------------------------------------

  /** The two searches of an operand push are one search of the block's stack part. */
  lemma LocationCode(s: Slot, base: nat, entry: seq<Slot>, bs: seq<Slot>, extra: nat)
    ensures OperandCode(Location(s), base, entry, bs, extra) ==
            match FirstIndex(bs + entry, s)
            case Some(i) => DupCode(i + 1 + extra)
            case None => Ok([PushWord(MemoryOffset(base, s)), Do(MLOAD)])
  {
    FirstIndexOfAppend(bs, entry, s);
  }

  lemma OperandRun(
      o: Operand, base: nat, entry: seq<Slot>, bs: seq<Slot>, above: seq<Word>,
      regs: Regs, rest: seq<Word>, labels: Label -> Word, s: Local)
    requires s.stack == above + RegValues(bs + entry, regs) + rest
    requires o.Location? ==> Findable(o.slot, bs + entry, regs, base, s.memory)
    requires OperandCode(o, base, entry, bs, |above|).Ok?
    ensures Run(OperandCode(o, base, entry, bs, |above|).value, labels, s)
         == Some(s.(stack := [OperandValue(regs, o)] + s.stack))
  {
    match o
    case Literal(c) => RunOne(OperandCode(o, base, entry, bs, |above|).value[0], labels, s);
    case Location(slot) =>
      LocationCode(slot, base, entry, bs, |above|);
      LocationRun(slot, base, bs + entry, above, regs, rest, labels, s);
  }

  lemma LocationRun(
      slot: Slot, base: nat, cur: seq<Slot>, above: seq<Word>, regs: Regs, rest: seq<Word>, labels: Label -> Word,
      s: Local)
    requires s.stack == above + RegValues(cur, regs) + rest
    requires Findable(slot, cur, regs, base, s.memory)
    requires var code := match FirstIndex(cur, slot)
                         case Some(i) => DupCode(i + 1 + |above|)
                         case None => Ok([PushWord(MemoryOffset(base, slot)), Do(MLOAD)]);
             code.Ok?
    ensures var code := match FirstIndex(cur, slot)
                        case Some(i) => DupCode(i + 1 + |above|)
                        case None => Ok([PushWord(MemoryOffset(base, slot)), Do(MLOAD)]);
            Run(code.value, labels, s) == Some(s.(stack := [Read(regs, slot)] + s.stack))
  {
    hide Run, Effect, RegValues;
    match FirstIndex(cur, slot)
    case Some(i) =>
      StackAt(above, RegValues(cur, regs), rest, i);
      RunDup(i + 1 + |above|, labels, s);
    case None => RunPushLoad(MemoryOffset(base, slot), labels, s);
  }

  lemma StackAt(above: seq<Word>, values: seq<Word>, rest: seq<Word>, i: nat)
    requires i < |values|
    ensures (above + values + rest)[i + |above|] == values[i]
  {
  }

  // ---------------------------------------------------------------------------
  // Stores
  // ---------------------------------------------------------------------------

  /** The block's slots after a store to `dest`. */
  function AfterStore(dest: Slot, alloc: Allocation, entry: seq<Slot>, bs: seq<Slot>): seq<Slot> {
    if OnStack(alloc, dest) && dest !in bs && dest !in entry then [dest] + bs else bs
  }

  ghost function MemoryAfter(dest: Slot, w: Word, ctx: Context, memory: map<nat, Word>): map<nat, Word> {
    if OnStack(ctx.alloc, dest) then memory else memory[MemoryOffset(ctx.base, dest) := w]
  }

  lemma StoreShape(dest: Slot, ctx: Context, entry: seq<Slot>, bs: seq<Slot>)
    requires StoreCode(dest, ctx, entry, bs).Ok?
    ensures var store := StoreCode(dest, ctx, entry, bs).value;
            && store.1 == AfterStore(dest, ctx.alloc, entry, bs)
            && (OnStack(ctx.alloc, dest) && dest in bs + entry ==>
                  SwapPopCode(FirstIndex(bs + entry, dest).value + 1) == Ok(store.0))
            && (OnStack(ctx.alloc, dest) && dest !in bs + entry ==> store.0 == [])
            && (!OnStack(ctx.alloc, dest) ==> store.0 == [PushWord(MemoryOffset(ctx.base, dest)), Do(MSTORE)])
  {
    FirstIndexOfAppend(bs, entry, dest);
  }

  lemma UpdateValues(cur: seq<Slot>, regs: Regs, dest: Slot, w: Word)
    requires Distinct(cur)
    ensures dest !in cur ==> RegValues(cur, regs[dest := w]) == RegValues(cur, regs)
    ensures dest in cur ==>
            RegValues(cur, regs[dest := w]) == RegValues(cur, regs)[FirstIndex(cur, dest).value := w]
  {
    if dest in cur {
      var i := FirstIndex(cur, dest).value;
      assert forall j :: 0 <= j < |cur| && j != i ==> cur[j] != dest;
    }
  }

  /** Storing the top of the stack updates the destination's home and nothing else. */
  lemma StoreRun(
      dest: Slot, w: Word, ctx: Context, entry: seq<Slot>, bs: seq<Slot>,
      regs: Regs, rest: seq<Word>, labels: Label -> Word, s: Local)
    requires s.stack == [w] + RegValues(bs + entry, regs) + rest
    requires Shape(bs + entry, ctx.alloc)
    requires StoreCode(dest, ctx, entry, bs).Ok?
    ensures var bs' := AfterStore(dest, ctx.alloc, entry, bs);
            Run(StoreCode(dest, ctx, entry, bs).value.0, labels, s) ==
            Some(Local(RegValues(bs' + entry, regs[dest := w]) + rest, MemoryAfter(dest, w, ctx, s.memory), s.storage))
  {
    StoreShape(dest, ctx, entry, bs);
    if !OnStack(ctx.alloc, dest) {
      UpdateValues(bs + entry, regs, dest, w);
      assert s.stack[1..] == RegValues(bs + entry, regs) + rest;
      RunPushStore(MemoryOffset(ctx.base, dest), labels, s);
    } else if dest in bs + entry {
      OverwriteRun(dest, w, bs + entry, regs, rest, labels, s);
    } else {
      FirstDefinition(dest, w, entry, bs, regs, rest);
    }
  }

  lemma OverwriteRun(
      dest: Slot, w: Word, cur: seq<Slot>, regs: Regs, rest: seq<Word>, labels: Label -> Word, s: Local)
    requires s.stack == [w] + RegValues(cur, regs) + rest
    requires Distinct(cur) && dest in cur
    requires SwapPopCode(FirstIndex(cur, dest).value + 1).Ok?
    ensures Run(SwapPopCode(FirstIndex(cur, dest).value + 1).value, labels, s)
         == Some(s.(stack := RegValues(cur, regs[dest := w]) + rest))
  {
    var i := FirstIndex(cur, dest).value;
    UpdateValues(cur, regs, dest, w);
    ReplaceUnderTop(RegValues(cur, regs), i, w, rest, labels, s);
  }

  lemma ReplaceUnderTop(values: seq<Word>, i: nat, w: Word, rest: seq<Word>, labels: Label -> Word, s: Local)
    requires s.stack == [w] + values + rest
    requires i < |values| && i + 1 <= 16
    ensures Run([Do(SWAP(i + 1)), Do(POP)], labels, s) == Some(s.(stack := values[i := w] + rest))
  {
    RunSwapPop(i + 1, labels, s);
    assert s.stack[1..] == values + rest;
    assert (values + rest)[i := w] == values[i := w] + rest;
  }

  lemma FirstDefinition(dest: Slot, w: Word, entry: seq<Slot>, bs: seq<Slot>, regs: Regs, rest: seq<Word>)
    requires Distinct(bs + entry) && dest !in bs + entry
    ensures [w] + RegValues(bs + entry, regs) + rest == RegValues([dest] + bs + entry, regs[dest := w]) + rest
  {
    UpdateValues(bs + entry, regs, dest, w);
    assert [dest] + bs + entry == [dest] + (bs + entry);
    assert RegValues([dest] + bs + entry, regs[dest := w]) == [w] + RegValues(bs + entry, regs);
  }

  // ---------------------------------------------------------------------------
  // Instructions that are not calls
  // ---------------------------------------------------------------------------

  /** The value an instruction assigns. */
  function InstructionValue(inst: Instruction, regs: Regs, storage: map<Word, Word>): Word
    requires !inst.Call? && !inst.StorageStore?
  {
    match inst
    case BinaryOp(_, op, l, r) => BinaryValue(op, OperandValue(regs, l), OperandValue(regs, r))
    case UnaryOp(_, op, o) => UnaryValue(op, OperandValue(regs, o))
    case StorageLoad(_, key) => Load(storage, key)
    case LoadConstant(_, c) => ConstantWord(c)
    case Copy(_, o) => OperandValue(regs, o)
  }

  /** Comparisons with equality are compiled as the negation of the opposite strict comparison. */
  lemma BinaryRun(op: BinaryOperator, l: Word, r: Word, rest: seq<Word>, labels: Label -> Word, s: Local)
    requires s.stack == [l, r] + rest
    ensures Run(BinaryCode(op), labels, s) == Some(s.(stack := [BinaryValue(op, l, r)] + rest))
  {
    var code := BinaryCode(op);
    assert s.stack[2..] == rest;
    if |code| == 1 {
      RunOne(code[0], labels, s);
    } else {
      RunTwo(code[0], code[1], labels, s);
    }
  }

  /** Negation pushes zero first, so what it computes is operand minus zero. */
  lemma NegateComputes(w: Word)
    ensures Sub(w, 0) == w
    ensures Sub(w, 0) == UnaryValue(Negate, w) <==> w == 0 || w == HALF_MODULUS
  {
  }

  /** The operand values for which the compiled negation is a negation. */
  ghost predicate NegateSafe(inst: Instruction, regs: Regs) {
    inst.UnaryOp? && inst.uop == Negate ==>
      OperandValue(regs, inst.operand) == 0 || OperandValue(regs, inst.operand) == HALF_MODULUS
  }

  ghost predicate UsesFindable(inst: Instruction, cur: seq<Slot>, regs: Regs, base: nat, memory: map<nat, Word>) {
    forall s :: s in Uses(inst) ==> Findable(s, cur, regs, base, memory)
  }

  lemma OperandFindable(o: Operand, os: seq<Operand>)
    requires o in os && o.Location?
    ensures o.slot in SlotsOf(os)
  {
  }

  lemma BinaryOpRun(
      inst: Instruction, base: nat, entry: seq<Slot>, bs: seq<Slot>,
      regs: Regs, rest: seq<Word>, labels: Label -> Word, s: Local)
    requires inst.BinaryOp?
    requires s.stack == RegValues(bs + entry, regs) + rest
    requires UsesFindable(inst, bs + entry, regs, base, s.memory)
    requires ValueCode(inst, base, entry, bs).Ok?
    ensures Run(ValueCode(inst, base, entry, bs).value, labels, s)
         == Some(s.(stack := [InstructionValue(inst, regs, s.storage)] + s.stack))
  {
    var l, r := OperandValue(regs, inst.left), OperandValue(regs, inst.right);
    var left, right := OperandCode(inst.left, base, entry, bs, 1).value,
        OperandCode(inst.right, base, entry, bs, 0).value;
    if inst.left.Location? { OperandFindable(inst.left, Operands(inst)); }
    if inst.right.Location? { OperandFindable(inst.right, Operands(inst)); }
    var s1 := s.(stack := [r] + s.stack);
    var s2 := s.(stack := [l] + s1.stack);
    assert s.stack == [] + RegValues(bs + entry, regs) + rest;
    OperandRun(inst.right, base, entry, bs, [], regs, rest, labels, s);
    assert s1.stack == [r] + RegValues(bs + entry, regs) + rest;
    OperandRun(inst.left, base, entry, bs, [r], regs, rest, labels, s1);
    assert s2.stack == [l, r] + s.stack;
    BinaryRun(inst.op, l, r, s.stack, labels, s2);
    RunAppend(right, left, labels, s);
    RunAppend(right + left, BinaryCode(inst.op), labels, s);
  }

  lemma UnaryOpRun(
      inst: Instruction, base: nat, entry: seq<Slot>, bs: seq<Slot>,
      regs: Regs, rest: seq<Word>, labels: Label -> Word, s: Local)
    requires inst.UnaryOp? && NegateSafe(inst, regs)
    requires s.stack == RegValues(bs + entry, regs) + rest
    requires UsesFindable(inst, bs + entry, regs, base, s.memory)
    requires ValueCode(inst, base, entry, bs).Ok?
    ensures Run(ValueCode(inst, base, entry, bs).value, labels, s)
         == Some(s.(stack := [InstructionValue(inst, regs, s.storage)] + s.stack))
  {
    var w := OperandValue(regs, inst.operand);
    if inst.operand.Location? { OperandFindable(inst.operand, Operands(inst)); }
    match inst.uop
    case Not =>
      var code := OperandCode(inst.operand, base, entry, bs, 0).value;
      assert s.stack == [] + RegValues(bs + entry, regs) + rest;
      OperandRun(inst.operand, base, entry, bs, [], regs, rest, labels, s);
      var s1 := s.(stack := [w] + s.stack);
      assert s1.stack[1..] == s.stack;
      RunOne(Do(ISZERO), labels, s1);
      RunAppend(code, [Do(ISZERO)], labels, s);
    case Negate =>
      NegateRun(inst, base, entry, bs, regs, rest, labels, s);
      NegateComputes(w);
  }

  /** The code of a negation leaves the operand itself. */
  lemma NegateRun(
      inst: Instruction, base: nat, entry: seq<Slot>, bs: seq<Slot>,
      regs: Regs, rest: seq<Word>, labels: Label -> Word, s: Local)
    requires inst.UnaryOp? && inst.uop == Negate
    requires s.stack == RegValues(bs + entry, regs) + rest
    requires UsesFindable(inst, bs + entry, regs, base, s.memory)
    requires ValueCode(inst, base, entry, bs).Ok?
    ensures Run(ValueCode(inst, base, entry, bs).value, labels, s)
         == Some(s.(stack := [OperandValue(regs, inst.operand)] + s.stack))
  {
    var w := OperandValue(regs, inst.operand);
    if inst.operand.Location? { OperandFindable(inst.operand, Operands(inst)); }
    var code := OperandCode(inst.operand, base, entry, bs, 1).value;
    var s1 := s.(stack := [0] + s.stack);
    assert s1.stack == [0] + RegValues(bs + entry, regs) + rest;
    OperandRun(inst.operand, base, entry, bs, [0], regs, rest, labels, s1);
    var s2 := s.(stack := [w] + s1.stack);
    assert s2.stack[2..] == s.stack;
    NegateComputes(w);
    RunOne(PushWord(0), labels, s);
    RunOne(Do(SUB), labels, s2);
    RunAppend([PushWord(0)], code, labels, s);
    RunAppend([PushWord(0)] + code, [Do(SUB)], labels, s);
  }

  /** The code of a negation negates exactly the words that are their own negation. */
  lemma NegateExact(
      inst: Instruction, base: nat, entry: seq<Slot>, bs: seq<Slot>,
      regs: Regs, rest: seq<Word>, labels: Label -> Word, s: Local)
    requires inst.UnaryOp? && inst.uop == Negate
    requires s.stack == RegValues(bs + entry, regs) + rest
    requires UsesFindable(inst, bs + entry, regs, base, s.memory)
    requires ValueCode(inst, base, entry, bs).Ok?
    ensures Run(ValueCode(inst, base, entry, bs).value, labels, s)
         == Some(s.(stack := [InstructionValue(inst, regs, s.storage)] + s.stack))
         <==> OperandValue(regs, inst.operand) == 0 || OperandValue(regs, inst.operand) == HALF_MODULUS
  {
    hide Run, ValueCode, RegValues, UsesFindable;
    NegateRun(inst, base, entry, bs, regs, rest, labels, s);
    var w, negated := OperandValue(regs, inst.operand), InstructionValue(inst, regs, s.storage);
    NegateComputes(w);
    assert ([w] + s.stack)[0] == w && ([negated] + s.stack)[0] == negated;
  }

  lemma ValueRun(
      inst: Instruction, base: nat, entry: seq<Slot>, bs: seq<Slot>,
      regs: Regs, rest: seq<Word>, labels: Label -> Word, s: Local)
    requires !inst.Call? && !inst.StorageStore? && NegateSafe(inst, regs)
    requires s.stack == RegValues(bs + entry, regs) + rest
    requires UsesFindable(inst, bs + entry, regs, base, s.memory)
    requires ValueCode(inst, base, entry, bs).Ok?
    ensures Run(ValueCode(inst, base, entry, bs).value, labels, s)
         == Some(s.(stack := [InstructionValue(inst, regs, s.storage)] + s.stack))
  {
    match inst
    case BinaryOp(_, _, _, _) => BinaryOpRun(inst, base, entry, bs, regs, rest, labels, s);
    case UnaryOp(_, _, _) => UnaryOpRun(inst, base, entry, bs, regs, rest, labels, s);
    case LoadConstant(_, c) => RunOne(ConstantCode(c).value[0], labels, s);
    case Copy(_, o) =>
      if o.Location? { OperandFindable(o, Operands(inst)); }
      assert s.stack == [] + RegValues(bs + entry, regs) + rest;
      OperandRun(o, base, entry, bs, [], regs, rest, labels, s);
    case StorageLoad(_, key) =>
      RunTwo(PushWord(key), Do(SLOAD), labels, s);
      assert ([key] + s.stack)[1..] == s.stack;
  }

  /** The memory after an instruction that is not a call. */
  ghost function InstructionMemory(inst: Instruction, ctx: Context, regs: Regs, s: Local): map<nat, Word>
    requires !inst.Call?
  {
    if inst.StorageStore? then s.memory
    else MemoryAfter(inst.dest, InstructionValue(inst, regs, s.storage), ctx, s.memory)
  }

  function BlockStackAfter(inst: Instruction, alloc: Allocation, entry: seq<Slot>, bs: seq<Slot>): seq<Slot> {
    match Destination(inst)
    case Some(d) => AfterStore(d, alloc, entry, bs)
    case None => bs
  }

  /**
   * The code of an instruction does to the machine what the instruction does to
   * the registers and the storage; the stack below the block's part is untouched.
   */
  lemma InstructionRun(
      inst: Instruction, ctx: Context, entry: seq<Slot>, bs: seq<Slot>, next: Label,
      regs: Regs, rest: seq<Word>, labels: Label -> Word, s: Local)
    requires !inst.Call? && NegateSafe(inst, regs)
    requires Shape(bs + entry, ctx.alloc)
    requires s.stack == RegValues(bs + entry, regs) + rest
    requires UsesFindable(inst, bs + entry, regs, ctx.base, s.memory)
    requires InstructionCode(inst, ctx, entry, bs, next).Ok?
    ensures var p := InstructionCode(inst, ctx, entry, bs, next).value;
            p.blockStack == BlockStackAfter(inst, ctx.alloc, entry, bs) &&
            Run(p.code, labels, s) == Some(Local(
              RegValues(p.blockStack + entry, ExecuteRegs(inst, regs, s.storage)) + rest,
              InstructionMemory(inst, ctx, regs, s),
              ExecuteStorage(inst, regs, s.storage)))
  {
    if inst.StorageStore? {
      StorageStoreRun(inst, ctx.base, entry, bs, regs, rest, labels, s);
    } else {
      var w := InstructionValue(inst, regs, s.storage);
      var code := ValueCode(inst, ctx.base, entry, bs).value;
      var store := StoreCode(inst.dest, ctx, entry, bs).value;
      ValueRun(inst, ctx.base, entry, bs, regs, rest, labels, s);
      StoreShape(inst.dest, ctx, entry, bs);
      AssignsValue(inst, regs, s.storage);
      var s1 := s.(stack := [w] + s.stack);
      assert s1.stack == [w] + RegValues(bs + entry, regs) + rest;
      StoreRun(inst.dest, w, ctx, entry, bs, regs, rest, labels, s1);
      RunAppend(code, store.0, labels, s);
    }
  }

  lemma StorageStoreRun(
      inst: Instruction, base: nat, entry: seq<Slot>, bs: seq<Slot>,
      regs: Regs, rest: seq<Word>, labels: Label -> Word, s: Local)
    requires inst.StorageStore?
    requires s.stack == RegValues(bs + entry, regs) + rest
    requires UsesFindable(inst, bs + entry, regs, base, s.memory)
    requires OperandCode(inst.value, base, entry, bs, 0).Ok?
    ensures Run(OperandCode(inst.value, base, entry, bs, 0).value + [PushWord(inst.key), Do(SSTORE)], labels, s)
         == Some(s.(storage := s.storage[inst.key := OperandValue(regs, inst.value)]))
  {
    var w := OperandValue(regs, inst.value);
    var code := OperandCode(inst.value, base, entry, bs, 0).value;
    if inst.value.Location? { OperandFindable(inst.value, Operands(inst)); }
    assert s.stack == [] + RegValues(bs + entry, regs) + rest;
    OperandRun(inst.value, base, entry, bs, [], regs, rest, labels, s);
    var s1 := s.(stack := [w] + s.stack);
    RunTwo(PushWord(inst.key), Do(SSTORE), labels, s1);
    assert ([inst.key] + s1.stack)[2..] == s.stack;
    RunAppend(code, [PushWord(inst.key), Do(SSTORE)], labels, s);
  }

  lemma AssignsValue(inst: Instruction, regs: Regs, storage: map<Word, Word>)
    requires !inst.Call? && !inst.StorageStore?
    ensures ExecuteRegs(inst, regs, storage) == regs[inst.dest := InstructionValue(inst, regs, storage)]
    ensures ExecuteStorage(inst, regs, storage) == storage
  {
  }
}
