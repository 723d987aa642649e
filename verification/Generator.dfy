/**
 * The code generator as the source has it: methods that append to a bytecode
 * builder (codegen/src/codegen and generate_function in codegen/src/lib.rs). Each emits
 * exactly what its function in Codegen.dfy says, or fails with the same error.
 */
module Generator {
  import opened Wrappers
  import opened Sequences
  import opened Words
  import opened Bytes
  import opened Evm
  import opened Lowered
  import opened Semantics
  import opened Shuffler
  import opened Codegen
  import opened Builder

  // ---------------------------------------------------------------------------
  // What emitting means
  // ---------------------------------------------------------------------------

  /** `r` reports the error of `spec`, or its code was appended to `before`. */
  ghost predicate Emits(r: Result<()>, spec: Result<seq<Asm>>, before: seq<Asm>, after: seq<Asm>) {
    match spec
    case Ok(code) => r.Ok? && after == before + code
    case Err(e) => r == Err(e)
  }

  /** Emitting `rest` now completes emitting `spec` from `before`. */
  ghost predicate Remains(spec: Result<seq<Asm>>, rest: Result<seq<Asm>>, before: seq<Asm>, now: seq<Asm>) {
    match rest
    case Ok(code) => spec.Ok? && before + spec.value == now + code
    case Err(e) => spec == Err(e)
  }

  function CodeOf(r: Result<Emitted>): Result<seq<Asm>> {
    match r
    case Ok(e) => Ok(e.code)
    case Err(e) => Err(e)
  }

  lemma RemainsAtStart(spec: Result<seq<Asm>>, before: seq<Asm>)
    ensures Remains(spec, spec, before, before)
  {
  }

  lemma RemainsNothing(spec: Result<seq<Asm>>, rest: Result<seq<Asm>>, before: seq<Asm>, now: seq<Asm>)
    requires Remains(spec, rest, before, now) && rest == Ok([])
    ensures Emits(Ok(()), spec, before, now)
  {
    assert now + [] == now;
  }

  /** One part of what remains has been emitted, or has failed. */
  lemma RemainsAfter(
      spec: Result<seq<Asm>>, rest: Result<seq<Asm>>, head: Result<seq<Asm>>, tail: Result<seq<Asm>>,
      before: seq<Asm>, now: seq<Asm>, after: seq<Asm>, r: Result<()>)
    requires Remains(spec, rest, before, now) && Emits(r, head, now, after)
    requires rest == match head {
               case Err(e) => Err(e)
               case Ok(h) => (match tail case Err(e) => Err(e) case Ok(t) => Ok(h + t)) }
    ensures r.Ok? ==> Remains(spec, tail, before, after)
    ensures r.Err? ==> Emits(r, spec, before, after)
  {
    if head.Ok? && tail.Ok? {
      assert now + (head.value + tail.value) == now + head.value + tail.value;
    }
  }

  // ---------------------------------------------------------------------------
  // Shuffles
  // ---------------------------------------------------------------------------

  /** The loop of `emit_shuffle`: a DUP deeper than 16 is dropped, a SWAP deeper than 16 panics. */
  method EmitShuffleOps(ops: seq<ShuffleOp>, base: nat, b: BytecodeBuilder) returns (r: Result<()>)
    requires b.Valid()
    modifies b`code, b`items
    ensures b.Valid() && Emits(r, CodeOf(EmitShuffle(ops, base)), old(b.items), b.items)
  {
    hide StandsFor, EmitShuffle, EmitOp, Remains, Emits, MemoryOffset;
    ghost var spec, before := CodeOf(EmitShuffle(ops, base)), b.items;
    RemainsAtStart(spec, before);
    assert ops[0..] == ops;
    var k := 0;
    while k < |ops|
      invariant k <= |ops| && b.Valid()
      invariant Remains(spec, CodeOf(EmitShuffle(ops[k..], base)), before, b.items)
    {
      ghost var now := b.items;
      EmitUnfolds(ops, k, base);
      r := EmitShuffleOp(ops[k], base, b);
      RemainsAfter(spec, CodeOf(EmitShuffle(ops[k..], base)), CodeOf(EmitOp(ops[k], base)),
                   CodeOf(EmitShuffle(ops[k + 1..], base)), before, now, b.items, r);
      if r.Err? {
        return r;
      }
      k := k + 1;
    }
    r := Ok(());
    EmitNone(ops[k..], base);
    RemainsNothing(spec, CodeOf(EmitShuffle(ops[k..], base)), before, b.items);
  }

  lemma EmitUnfolds(ops: seq<ShuffleOp>, k: nat, base: nat)
    requires k < |ops|
    ensures CodeOf(EmitShuffle(ops[k..], base)) ==
            match CodeOf(EmitOp(ops[k], base)) {
              case Err(e) => Err(e)
              case Ok(h) => (match CodeOf(EmitShuffle(ops[k + 1..], base)) case Err(e) => Err(e) case Ok(t) =>
                  Ok(h + t)) }
  {
    assert ops[k..][0] == ops[k] && ops[k..][1..] == ops[k + 1..];
  }

  lemma EmitNone(ops: seq<ShuffleOp>, base: nat)
    requires ops == []
    ensures CodeOf(EmitShuffle(ops, base)) == Ok([])
  {
  }

  method EmitShuffleOp(op: ShuffleOp, base: nat, b: BytecodeBuilder) returns (r: Result<()>)
    requires b.Valid()
    modifies b`code, b`items
    ensures b.Valid() && Emits(r, CodeOf(EmitOp(op, base)), old(b.items), b.items)
  {
    hide StandsFor;
    r := Ok(());
    match op
    case Dup(n) =>
      if DupForPosition(n).Some? {
        b.Emit(DupForPosition(n).value);
      }
    case Swap(n) =>
      if SwapForPosition(n).None? {
        return Err(DepthPanic);
      }
      b.Emit(SwapForPosition(n).value);
    case Pop => b.Emit(POP);
    case MLoad(slot) =>
      b.PushU64(MemoryOffset(base, slot));
      b.Emit(MLOAD);
    case MStore(slot) =>
      b.PushU64(MemoryOffset(base, slot));
      b.Emit(MSTORE);
  }

  /** `emit_drain` */
  method EmitDrain(n: nat, b: BytecodeBuilder)
    requires b.Valid()
    modifies b`code, b`items
    ensures b.Valid() && b.items == old(b.items) + DrainCode(n)
  {
    hide StandsFor;
    for i := 0 to n
      invariant b.Valid() && b.items == old(b.items) + DrainCode(i)
    {
      b.Emit(POP);
    }
  }

  /** `emit_drain_except_tos` */
  method EmitDrainExceptTos(below: nat, b: BytecodeBuilder)
    requires b.Valid()
    modifies b`code, b`items
    ensures b.Valid() && b.items == old(b.items) + DrainBelowCode(below)
  {
    hide StandsFor;
    for i := 0 to below
      invariant b.Valid() && b.items == old(b.items) + DrainBelowCode(i)
    {
      b.Emit(SWAP(1));
      b.Emit(POP);
    }
  }

  method ShuffleTo(current: seq<Slot>, target: seq<Slot>, base: nat, b: BytecodeBuilder) returns (r: Result<()>)
    requires b.Valid()
    modifies b`code, b`items
    ensures b.Valid() && Emits(r, CodeOf(ShuffleCode(current, target, base)), old(b.items), b.items)
  {
    hide StandsFor, Plan, EmitShuffle;
    var ops := PlanShuffle(Present(current), target);
    r := EmitShuffleOps(ops, base, b);
  }

  // ---------------------------------------------------------------------------
  // Operands and results
  // ---------------------------------------------------------------------------

  method PushConstant(c: Constant, b: BytecodeBuilder) returns (r: Result<()>)
    requires b.Valid()
    modifies b`code, b`items
    ensures b.Valid() && Emits(r, ConstantCode(c), old(b.items), b.items)
    ensures r.Ok? <==> !c.StringConst?
    ensures r.Ok? ==> exists w :: Denotes(c, w) && b.items == old(b.items) + [PushWord(w)]
  {
    hide StandsFor, Denotes;
    LiteralIs(c);
    r := Ok(());
    match c
    case IntConst(i) => b.PushU256(Int64Word(i));
    case BoolConst(v) =>
      SmallValue(FromBool(v));
      var _ := b.Push([FromBool(v)]);
    case AddressConst(w) => b.PushU256(w);
    case StringConst(_) => return Err(StringConstant);
  }

  lemma SmallValue(v: Byte)
    ensures FromBytes([v]) == v && |Trimmed([v])| <= 32
  {
    assert [v][..0] == [] && [v][1..] == [];
  }

  method PushOperand(o: Operand, base: nat, entry: seq<Slot>, bs: seq<Slot>, extra: nat, b: BytecodeBuilder)
    returns (r: Result<()>)
    requires b.Valid()
    modifies b`code, b`items
    ensures b.Valid() && Emits(r, OperandCode(o, base, entry, bs, extra), old(b.items), b.items)
  {
    hide StandsFor;
    match o
    case Literal(c) => r := PushConstant(c, b);
    case Location(s) =>
      var i := FirstIndex(bs, s);
      if i.Some? {
        r := EmitDup(i.value + 1 + extra, b);
        return;
      }
      i := FirstIndex(entry, s);
      if i.Some? {
        r := EmitDup(|bs| + i.value + 1 + extra, b);
        return;
      }
      b.PushU64(MemoryOffset(base, s));
      b.Emit(MLOAD);
      r := Ok(());
  }

  method EmitDup(pos: nat, b: BytecodeBuilder) returns (r: Result<()>)
    requires b.Valid()
    modifies b`code, b`items
    ensures b.Valid() && Emits(r, DupCode(pos), old(b.items), b.items)
  {
    hide StandsFor;
    var op := DupForPosition(pos);
    if op.None? {
      return Err(DepthPanic);
    }
    b.Emit(op.value);
    r := Ok(());
  }

  method EmitSwapPop(pos: nat, b: BytecodeBuilder) returns (r: Result<()>)
    requires b.Valid()
    modifies b`code, b`items
    ensures b.Valid() && Emits(r, SwapPopCode(pos), old(b.items), b.items)
  {
    hide StandsFor;
    var op := SwapForPosition(pos);
    if op.None? {
      return Err(DepthPanic);
    }
    b.Emit(op.value);
    b.Emit(POP);
    r := Ok(());
  }

  /** The code part and the block stack part of what a store produces. */
  ghost predicate Stores(
      r: Result<()>, bs': seq<Slot>, spec: Result<(seq<Asm>, seq<Slot>)>, before: seq<Asm>, after: seq<Asm>) {
    match spec
    case Ok((code, stack)) => r.Ok? && after == before + code && bs' == stack
    case Err(e) => r == Err(e)
  }

  method StoreToSlot(dest: Slot, ctx: Context, entry: seq<Slot>, bs: seq<Slot>, b: BytecodeBuilder)
    returns (r: Result<()>, bs': seq<Slot>)
    requires b.Valid()
    modifies b`code, b`items
    ensures b.Valid() && Stores(r, bs', StoreCode(dest, ctx, entry, bs), old(b.items), b.items)
  {
    hide StandsFor;
    bs' := bs;
    if OnStack(ctx.alloc, dest) {
      var d := FirstIndex(bs, dest);
      if d.Some? {
        r := EmitSwapPop(d.value + 1, b);
        return;
      }
      var e := FirstIndex(entry, dest);
      if e.Some? {
        r := EmitSwapPop(|bs| + e.value + 1, b);
        return;
      }
      bs' := [dest] + bs;
    } else {
      b.PushU64(MemoryOffset(ctx.base, dest));
      b.Emit(MSTORE);
    }
    r := Ok(());
  }

  // ---------------------------------------------------------------------------
  // Instructions
  // ---------------------------------------------------------------------------

  method EmitBinary(op: BinaryOperator, b: BytecodeBuilder)
    requires b.Valid()
    modifies b`code, b`items
    ensures b.Valid() && b.items == old(b.items) + BinaryCode(op)
  {
    hide StandsFor;
    match op
    case LessEqual => b.Emit(GT); b.Emit(ISZERO);
    case GreaterEqual => b.Emit(LT); b.Emit(ISZERO);
    case NotEqual => b.Emit(EQ); b.Emit(ISZERO);
    case Plus => b.Emit(ADD);
    case Subtract => b.Emit(SUB);
    case Multiply => b.Emit(MUL);
    case Divide => b.Emit(DIV);
    case Modulo => b.Emit(MOD);
    case Less => b.Emit(LT);
    case Greater => b.Emit(GT);
    case Equal => b.Emit(EQ);
    case LogicalAnd => b.Emit(AND);
    case LogicalOr => b.Emit(OR);
  }

  /** The value of an instruction that has a destination and is not a call. */
  method EmitValue(inst: Instruction, base: nat, entry: seq<Slot>, bs: seq<Slot>, b: BytecodeBuilder)
    returns (r: Result<()>)
    requires b.Valid() && !inst.Call? && !inst.StorageStore?
    modifies b`code, b`items
    ensures b.Valid() && Emits(r, ValueCode(inst, base, entry, bs), old(b.items), b.items)
  {
    hide StandsFor, OperandCode, BinaryCode, ConstantCode;
    match inst
    case BinaryOp(_, op, left, right) =>
      r := PushOperand(right, base, entry, bs, 0, b);
      if r.Err? {
        return;
      }
      r := PushOperand(left, base, entry, bs, 1, b);
      if r.Err? {
        return;
      }
      EmitBinary(op, b);
    case UnaryOp(_, op, o) =>
      if op == Negate {
        SmallValue(0);
        var _ := b.Push([0]);
        r := PushOperand(o, base, entry, bs, 1, b);
        if r.Err? {
          return;
        }
        b.Emit(SUB);
      } else {
        r := PushOperand(o, base, entry, bs, 0, b);
        if r.Err? {
          return;
        }
        b.Emit(ISZERO);
      }
    case LoadConstant(_, c) => r := PushConstant(c, b);
    case Copy(_, o) => r := PushOperand(o, base, entry, bs, 0, b);
    case StorageLoad(_, key) =>
      b.PushU64(key);
      b.Emit(SLOAD);
      r := Ok(());
  }

  /** What an instruction leaves behind: code, block stack, next label. */
  ghost predicate Yields(
      r: Result<()>, bs': seq<Slot>, next: Label, spec: Result<Piece>, before: seq<Asm>, after: seq<Asm>) {
    match spec
    case Ok(p) => r.Ok? && after == before + p.code && bs' == p.blockStack && next == p.next
    case Err(e) => r == Err(e)
  }

  method PushArguments(args: seq<Operand>, base: nat, entry: seq<Slot>, bs: seq<Slot>, b: BytecodeBuilder)
    returns (r: Result<()>)
    requires b.Valid()
    modifies b`code, b`items
    ensures b.Valid() && Emits(r, ArgumentsCode(args, base, entry, bs), old(b.items), b.items)
  {
    hide StandsFor, OperandCode, ArgumentsCode;
    ghost var before := b.items;
    ArgumentsNone(args[..0], base, entry, bs);
    var i := 0;
    while i < |args|
      invariant i <= |args| && b.Valid()
      invariant ArgumentsCode(args[..i], base, entry, bs).Ok?
      invariant b.items == before + ArgumentsCode(args[..i], base, entry, bs).value
    {
      ArgumentsNext(args, i, base, entry, bs);
      r := PushOperand(args[i], base, entry, bs, i, b);
      if r.Err? {
        ArgumentsFail(args, i + 1, base, entry, bs);
        return;
      }
      i := i + 1;
    }
    assert args[..i] == args;
    r := Ok(());
  }

  lemma ArgumentsNone(args: seq<Operand>, base: nat, entry: seq<Slot>, bs: seq<Slot>)
    requires args == []
    ensures ArgumentsCode(args, base, entry, bs) == Ok([])
  {
  }

  lemma ArgumentsNext(args: seq<Operand>, i: nat, base: nat, entry: seq<Slot>, bs: seq<Slot>)
    requires i < |args| && ArgumentsCode(args[..i], base, entry, bs).Ok?
    ensures ArgumentsCode(args[..i + 1], base, entry, bs) ==
            match OperandCode(args[i], base, entry, bs, i) {
              case Ok(code) => Ok(ArgumentsCode(args[..i], base, entry, bs).value + code)
              case Err(e) => Err(e) }
  {
    hide OperandCode;
    assert args[..i + 1][..i] == args[..i];
  }

  lemma {:induction false} ArgumentsFail(args: seq<Operand>, i: nat, base: nat, entry: seq<Slot>, bs: seq<Slot>)
    requires i <= |args| && ArgumentsCode(args[..i], base, entry, bs).Err?
    ensures ArgumentsCode(args, base, entry, bs) == ArgumentsCode(args[..i], base, entry, bs)
    decreases |args|
  {
    hide OperandCode;
    if i == |args| {
      assert args[..i] == args;
    } else {
      var init := args[..|args| - 1];
      assert init[..i] == args[..i];
      ArgumentsFail(init, i, base, entry, bs);
    }
  }

  method TranslateCall(
      result: Option<Slot>, target: CallTarget, args: seq<Operand>,
      ctx: Context, entry: seq<Slot>, bs: seq<Slot>, b: BytecodeBuilder)
    returns (r: Result<()>, bs': seq<Slot>)
    requires b.Valid()
    modifies b`code, b`items, b`labels, b`pendingJumps, b`nextLabelId
    ensures b.Valid()
    ensures Yields(r, bs', b.nextLabelId, CallCode(result, target, args, ctx, entry, bs, old(b.nextLabelId)),
        old(b.items), b.items)
  {
    hide StandsFor, ArgumentsCode, StoreCode;
    bs' := bs;
    match target
    case External => return Err(ExternalCall), bs;
    case Internal(fn) =>
      if fn !in ctx.calls {
        return Err(UnknownCallee), bs;
      }
      if |args| != |ctx.calls[fn].parameters| {
        return Err(ArgumentCount), bs;
      }
      r := PushArguments(args, ctx.base, entry, bs, b);
      if r.Err? {
        return;
      }
      var continuation := b.NewLabel();
      EmitCallJump(continuation, ctx.calls[fn].entryLabel, b);
      if result.Some? {
        r, bs' := StoreToSlot(result.value, ctx, entry, bs, b);
      }
  }

  method EmitCallJump(continuation: Label, callee: Label, b: BytecodeBuilder)
    requires b.Valid()
    modifies b`code, b`items, b`labels, b`pendingJumps
    ensures b.Valid() && b.items == old(b.items) + CallJump(continuation, callee)
  {
    hide StandsFor;
    b.PushLabel(continuation);
    b.JumpTo(callee);
    b.MarkLabel(continuation);
    b.Emit(JUMPDEST);
  }

  method TranslateStorageStore(
      key: Uint64, value: Operand, base: nat, entry: seq<Slot>, bs: seq<Slot>, b: BytecodeBuilder)
    returns (r: Result<()>)
    requires b.Valid()
    modifies b`code, b`items
    ensures b.Valid()
    ensures match OperandCode(value, base, entry, bs, 0) {
              case Ok(code) => r.Ok? && b.items == old(b.items) + (code + [PushWord(key), Do(SSTORE)])
              case Err(e) => r == Err(e) }
  {
    hide StandsFor, OperandCode;
    r := PushOperand(value, base, entry, bs, 0, b);
    if r.Err? {
      return;
    }
    b.PushU64(key);
    b.Emit(SSTORE);
  }

  method TranslateInstruction(inst: Instruction, ctx: Context, entry: seq<Slot>, bs: seq<Slot>, b: BytecodeBuilder)
    returns (r: Result<()>, bs': seq<Slot>)
    requires b.Valid()
    modifies b`code, b`items, b`labels, b`pendingJumps, b`nextLabelId
    ensures b.Valid()
    ensures Yields(r, bs', b.nextLabelId, InstructionCode(inst, ctx, entry, bs, old(b.nextLabelId)), old(b.items),
        b.items)
  {
    hide StandsFor, ValueCode, StoreCode, CallCode, OperandCode;
    bs' := bs;
    match inst
    case Call(result, target, args) => r, bs' := TranslateCall(result, target, args, ctx, entry, bs, b);
    case StorageStore(key, value) => r := TranslateStorageStore(key, value, ctx.base, entry, bs, b);
    case _ =>
      r := EmitValue(inst, ctx.base, entry, bs, b);
      if r.Err? {
        return;
      }
      r, bs' := StoreToSlot(inst.dest, ctx, entry, bs, b);
  }

  // ---------------------------------------------------------------------------
  // Terminators
  // ---------------------------------------------------------------------------

  method EmitCondition(condition: Operand, current: seq<Slot>, thenLayout: seq<Slot>, base: nat, b: BytecodeBuilder)
    returns (r: Result<()>)
    requires b.Valid()
    modifies b`code, b`items
    ensures b.Valid() && Emits(r, CodeOf(ConditionCode(condition, current, thenLayout, base)), old(b.items), b.items)
  {
    hide StandsFor, ShuffleCode, ConstantCode;
    match condition
    case Location(s) => r := ShuffleTo(current, [s] + thenLayout, base, b);
    case Literal(c) =>
      r := ShuffleTo(current, thenLayout, base, b);
      if r.Err? {
        return;
      }
      r := PushConstant(c, b);
  }

  method EmitReturn(value: Option<Operand>, current: seq<Slot>, base: nat, b: BytecodeBuilder) returns (r: Result<()>)
    requires b.Valid()
    modifies b`code, b`items
    ensures b.Valid()
    ensures forall ctx: Context, entry, bs :: ctx.base == base && bs + entry == current ==>
              Emits(r, CodeOf(TerminatorCode(Return(value), ctx, entry, bs)), old(b.items), b.items)
  {
    hide StandsFor, ShuffleCode, ConstantCode;
    var target := if value.Some? && value.value.Location? then [value.value.slot] else [];
    r := ShuffleTo(current, target, base, b);
    if r.Err? {
      return;
    }
    if value.Some? && value.value.Literal? {
      r := PushConstant(value.value.c, b);
      if r.Err? {
        return;
      }
    }
    if value.Some? {
      b.Emit(SWAP(1));
    }
    b.Emit(JUMP);
  }

  method TranslateTerminator(t: Terminator, ctx: Context, entry: seq<Slot>, bs: seq<Slot>, b: BytecodeBuilder)
    returns (r: Result<()>)
    requires b.Valid()
    modifies b`code, b`items, b`pendingJumps
    ensures b.Valid() && Emits(r, CodeOf(TerminatorCode(t, ctx, entry, bs)), old(b.items), b.items)
  {
    hide StandsFor, ShuffleCode, ConditionCode;
    var current := bs + entry;
    match t
    case Jump(target) =>
      if target !in ctx.labels {
        return Err(MissingLabel);
      }
      r := ShuffleTo(current, Layout(ctx.alloc, target), ctx.base, b);
      if r.Err? {
        return;
      }
      b.JumpTo(ctx.labels[target]);
    case Branch(condition, thenBlock, elseBlock) =>
      if thenBlock !in ctx.labels || elseBlock !in ctx.labels {
        return Err(MissingLabel);
      }
      var thenLayout := Layout(ctx.alloc, thenBlock);
      r := EmitCondition(condition, current, thenLayout, ctx.base, b);
      if r.Err? {
        return;
      }
      b.JumpiTo(ctx.labels[thenBlock]);
      r := ShuffleTo(thenLayout, Layout(ctx.alloc, elseBlock), ctx.base, b);
      if r.Err? {
        return;
      }
      b.JumpTo(ctx.labels[elseBlock]);
    case Return(value) => r := EmitReturn(value, current, ctx.base, b);
    case Unreachable =>
      r := ShuffleTo(current, [], ctx.base, b);
      if r.Err? {
        return;
      }
      b.Emit(INVALID);
  }

  // ---------------------------------------------------------------------------
  // Blocks
  // ---------------------------------------------------------------------------

  /** Emitting `rest` completes emitting `spec`, with the same last label. */
  ghost predicate PieceRemains(spec: Result<Piece>, rest: Result<Piece>, before: seq<Asm>, now: seq<Asm>) {
    match rest
    case Ok(p) => spec.Ok? && before + spec.value.code == now + p.code && spec.value.next == p.next
    case Err(e) => spec == Err(e)
  }

  /** The code of `spec` was appended and its labels were used, or its error reported. */
  ghost predicate PieceEmitted(r: Result<()>, next: Label, spec: Result<Piece>, before: seq<Asm>, after: seq<Asm>) {
    match spec
    case Ok(p) => r.Ok? && after == before + p.code && next == p.next
    case Err(e) => r == Err(e)
  }

  lemma PieceStarts(spec: Result<Piece>, before: seq<Asm>)
    ensures PieceRemains(spec, spec, before, before)
  {
  }

  lemma PieceAdvances(
      spec: Result<Piece>, rest: Result<Piece>, head: Result<Piece>, tail: Result<Piece>,
      before: seq<Asm>, now: seq<Asm>, after: seq<Asm>, r: Result<()>, bs': seq<Slot>, next: Label)
    requires PieceRemains(spec, rest, before, now) && Yields(r, bs', next, head, now, after)
    requires head.Err? ==> rest == head
    requires head.Ok? && tail.Err? ==> rest == tail
    requires head.Ok? && tail.Ok? ==>
               rest.Ok? && rest.value.code == head.value.code + tail.value.code && rest.value.next == tail.value.next
    ensures r.Ok? ==> PieceRemains(spec, tail, before, after)
    ensures r.Err? ==> PieceEmitted(r, next, spec, before, after)
  {
    if head.Ok? && tail.Ok? {
      assert now + (head.value.code + tail.value.code) == now + head.value.code + tail.value.code;
    }
  }

  lemma RestUnfolds(
      insts: seq<Instruction>, t: Terminator, ctx: Context, entry: seq<Slot>, bs: seq<Slot>, next: Label, i: nat)
    requires i < |insts|
    ensures var rest, head := RestCode(insts[i..], t, ctx, entry, bs, next),
        InstructionCode(insts[i], ctx, entry, bs, next);
            && (head.Err? ==> rest == head)
            && (head.Ok? ==>
                  var tail := RestCode(insts[i + 1..], t, ctx, entry, head.value.blockStack, head.value.next);
                  && (tail.Err? ==> rest == tail)
                  && (tail.Ok? ==> rest.Ok? && rest.value.code == head.value.code + tail.value.code
                                   && rest.value.next == tail.value.next))
  {
    hide InstructionCode;
    assert insts[i..][0] == insts[i] && insts[i..][1..] == insts[i + 1..];
  }

  lemma RestEnds(t: Terminator, ctx: Context, entry: seq<Slot>, bs: seq<Slot>, next: Label)
    ensures var rest, e := RestCode([], t, ctx, entry, bs, next), TerminatorCode(t, ctx, entry, bs);
            && (e.Err? ==> rest == Err(e.error))
            && (e.Ok? ==> rest.Ok? && rest.value.code == e.value.code && rest.value.next == next)
  {
    hide TerminatorCode;
  }

  method EmitBody(block: Block, ctx: Context, entry: seq<Slot>, b: BytecodeBuilder) returns (r: Result<()>)
    requires b.Valid()
    modifies b`code, b`items, b`labels, b`pendingJumps, b`nextLabelId
    ensures b.Valid()
    ensures PieceEmitted(r, b.nextLabelId, RestCode(block.instructions, block.terminator, ctx, entry, [],
        old(b.nextLabelId)),
                         old(b.items), b.items)
  {
    hide StandsFor, RestCode, InstructionCode, TerminatorCode, PieceRemains;
    var insts, t := block.instructions, block.terminator;
    ghost var spec, before := RestCode(insts, t, ctx, entry, [], b.nextLabelId), b.items;
    PieceStarts(spec, before);
    var bs: seq<Slot> := [];
    assert insts[0..] == insts;
    var i := 0;
    while i < |insts|
      invariant i <= |insts| && b.Valid()
      invariant PieceRemains(spec, RestCode(insts[i..], t, ctx, entry, bs, b.nextLabelId), before, b.items)
    {
      ghost var now, stack, next := b.items, bs, b.nextLabelId;
      RestUnfolds(insts, t, ctx, entry, bs, next, i);
      r, bs := TranslateInstruction(insts[i], ctx, entry, bs, b);
      PieceAdvances(spec, RestCode(insts[i..], t, ctx, entry, stack, next),
          InstructionCode(insts[i], ctx, entry, stack, next),
                    RestCode(insts[i + 1..], t, ctx, entry, bs, b.nextLabelId), before, now, b.items, r, bs,
                        b.nextLabelId);
      if r.Err? {
        return;
      }
      i := i + 1;
    }
    assert insts[i..] == [];
    RestEnds(t, ctx, entry, bs, b.nextLabelId);
    ghost var now := b.items;
    r := TranslateTerminator(t, ctx, entry, bs, b);
    BodyEnds(spec, RestCode([], t, ctx, entry, bs, b.nextLabelId), TerminatorCode(t, ctx, entry, bs), before, now,
        b.items, r, b.nextLabelId);
  }

  lemma BodyEnds(
      spec: Result<Piece>, rest: Result<Piece>, e: Result<Emitted>,
      before: seq<Asm>, now: seq<Asm>, after: seq<Asm>, r: Result<()>, next: Label)
    requires PieceRemains(spec, rest, before, now) && Emits(r, CodeOf(e), now, after)
    requires e.Err? ==> rest == Err(e.error)
    requires e.Ok? ==> rest.Ok? && rest.value.code == e.value.code && rest.value.next == next
    ensures PieceEmitted(r, next, spec, before, after)
  {
  }

  /** MLOADs of the slots, the last one first. */
  method EmitLoads(slots: seq<Slot>, base: nat, b: BytecodeBuilder)
    requires b.Valid()
    modifies b`code, b`items
    ensures b.Valid() && b.items == old(b.items) + LoadAll(slots, base)
  {
    hide StandsFor, MemoryOffset;
    ghost var before := b.items;
    var i := |slots|;
    assert before + [] == before;
    while i > 0
      invariant 0 <= i <= |slots| && b.Valid() && b.items == before + LoadAll(slots[i..], base)
    {
      i := i - 1;
      assert slots[i..][1..] == slots[i + 1..];
      b.PushU64(MemoryOffset(base, slots[i]));
      b.Emit(MLOAD);
      assert b.items == before + (LoadAll(slots[i + 1..], base) + [PushWord(MemoryOffset(base, slots[i])), Do(MLOAD)]);
    }
    assert slots[0..] == slots;
  }

  /** The parameters as an internal entry finds them once the continuation is sunk. */
  method InitialStack(parameters: seq<Slot>) returns (r: seq<Slot>)
    requires parameters != []
    ensures r == ArgumentOrder(parameters)
  {
    r := [parameters[0]];
    var i := |parameters|;
    ghost var tail := parameters[1..];
    while i > 1
      invariant 1 <= i <= |parameters|
      invariant r == [parameters[0]] + Reversed(tail)[..|parameters| - i]
    {
      i := i - 1;
      assert Reversed(tail)[|parameters| - i - 1] == tail[i - 1] == parameters[i];
      r := r + [parameters[i]];
    }
    assert Reversed(tail)[..|tail|] == Reversed(tail);
  }

  method EmitPrologue(u: Unit, entry: seq<Slot>, b: BytecodeBuilder) returns (r: Result<()>)
    requires b.Valid()
    modifies b`code, b`items
    ensures b.Valid() && Emits(r, CodeOf(Prologue(u, entry)), old(b.items), b.items)
  {
    hide StandsFor, ShuffleCode, LoadAll, ArgumentOrder;
    r := Ok(());
    if u.fn.isExternal {
      EmitLoads(entry, u.base, b);
    } else if u.fn.parameters != [] {
      var swap := SwapForPosition(|u.fn.parameters|);
      if swap.None? {
        return Err(TooManyParameters);
      }
      b.Emit(swap.value);
      var initial := InitialStack(u.fn.parameters);
      r := ShuffleTo(initial, entry, u.base, b);
    }
  }

  method EmitBlock(u: Unit, ctx: Context, id: BlockId, b: BytecodeBuilder) returns (r: Result<()>)
    requires b.Valid()
    modifies b`code, b`items, b`labels, b`pendingJumps, b`nextLabelId
    ensures b.Valid()
    ensures PieceEmitted(r, b.nextLabelId, BlockCode(u, ctx, id, old(b.nextLabelId)), old(b.items), b.items)
  {
    hide StandsFor, RestCode, Prologue;
    if id !in u.fn.cfg.blocks {
      return Err(MissingBlock);
    }
    if id !in ctx.labels {
      return Err(MissingLabel);
    }
    b.MarkLabel(ctx.labels[id]);
    b.Emit(JUMPDEST);
    var entry := Layout(ctx.alloc, id);
    if id == u.fn.cfg.entry {
      r := EmitPrologue(u, entry, b);
      if r.Err? {
        return;
      }
    }
    r := EmitBody(u.fn.cfg.blocks[id], ctx, entry, b);
  }

  lemma BlocksUnfold(u: Unit, ctx: Context, order: seq<BlockId>, next: Label, i: nat)
    requires i < |order|
    ensures var rest, head := BlocksCode(u, ctx, order[i..], next), BlockCode(u, ctx, order[i], next);
            && (head.Err? ==> rest == head)
            && (head.Ok? ==>
                  var tail := BlocksCode(u, ctx, order[i + 1..], head.value.next);
                  && (tail.Err? ==> rest == tail)
                  && (tail.Ok? ==> rest.Ok? && rest.value.code == head.value.code + tail.value.code
                                   && rest.value.next == tail.value.next))
  {
    hide BlockCode;
    assert order[i..][0] == order[i] && order[i..][1..] == order[i + 1..];
  }

  lemma BlocksEnd(u: Unit, ctx: Context, next: Label)
    ensures BlocksCode(u, ctx, [], next) == Ok(Piece([], [], next, true))
  {
  }

  lemma PieceIsYield(r: Result<()>, next: Label, spec: Result<Piece>, before: seq<Asm>, after: seq<Asm>)
    requires PieceEmitted(r, next, spec, before, after)
    ensures Yields(r, if spec.Ok? then spec.value.blockStack else [], next, spec, before, after)
  {
  }

  lemma PieceDone(spec: Result<Piece>, next: Label, before: seq<Asm>, now: seq<Asm>)
    requires PieceRemains(spec, Ok(Piece([], [], next, true)), before, now)
    ensures PieceEmitted(Ok(()), next, spec, before, now)
  {
    assert now + [] == now;
  }

  method EmitBlocks(u: Unit, ctx: Context, b: BytecodeBuilder) returns (r: Result<()>)
    requires b.Valid()
    modifies b`code, b`items, b`labels, b`pendingJumps, b`nextLabelId
    ensures b.Valid()
    ensures PieceEmitted(r, b.nextLabelId, BlocksCode(u, ctx, u.order, old(b.nextLabelId)), old(b.items), b.items)
  {
    hide StandsFor, BlocksCode, BlockCode, PieceRemains, PieceEmitted, Yields;
    var order := u.order;
    ghost var spec, before := BlocksCode(u, ctx, order, b.nextLabelId), b.items;
    PieceStarts(spec, before);
    assert order[0..] == order;
    var i := 0;
    while i < |order|
      invariant i <= |order| && b.Valid()
      invariant PieceRemains(spec, BlocksCode(u, ctx, order[i..], b.nextLabelId), before, b.items)
    {
      ghost var now, next := b.items, b.nextLabelId;
      BlocksUnfold(u, ctx, order, next, i);
      r := EmitBlock(u, ctx, order[i], b);
      ghost var head := BlockCode(u, ctx, order[i], next);
      PieceIsYield(r, b.nextLabelId, head, now, b.items);
      YieldsNext(r, head, b.nextLabelId, now, b.items);
      PieceAdvances(spec, BlocksCode(u, ctx, order[i..], next), head, BlocksCode(u, ctx, order[i + 1..], b.nextLabelId),
                    before, now, b.items, r, if head.Ok? then head.value.blockStack else [], b.nextLabelId);
      if r.Err? {
        return;
      }
      i := i + 1;
    }
    assert order[i..] == [];
    BlocksEnd(u, ctx, b.nextLabelId);
    PieceDone(spec, b.nextLabelId, before, b.items);
    r := Ok(());
  }

  lemma YieldsNext(r: Result<()>, head: Result<Piece>, next: Label, before: seq<Asm>, after: seq<Asm>)
    requires PieceEmitted(r, next, head, before, after)
    ensures head.Ok? ==> head.value.next == next
  {
  }

  /** Reserve a label for every block of the order. */
  method ReserveLabels(order: seq<BlockId>, b: BytecodeBuilder) returns (labels: map<BlockId, Label>)
    requires b.Valid()
    modifies b`nextLabelId
    ensures b.Valid() && labels == BlockLabels(order, old(b.nextLabelId))
    ensures b.nextLabelId == old(b.nextLabelId) + |order|
  {
    hide StandsFor;
    labels := map[];
    ghost var first := b.nextLabelId;
    for i := 0 to |order|
      invariant b.Valid() && b.nextLabelId == first + i && labels == BlockLabels(order[..i], first)
    {
      assert order[..i + 1][..i] == order[..i];
      var l := b.NewLabel();
      labels := labels[order[i] := l];
    }
    assert order[..|order|] == order;
  }

  /** The labels and the blocks of one function whose order and allocation are known. */
  method EmitFunction(u: Unit, calls: map<FnId, CallInfo>, b: BytecodeBuilder) returns (r: Result<()>)
    requires b.Valid()
    modifies b`code, b`items, b`labels, b`pendingJumps, b`nextLabelId
    ensures b.Valid()
    ensures PieceEmitted(r, b.nextLabelId, FunctionCode(u, calls, old(b.nextLabelId)), old(b.items), b.items)
  {
    hide StandsFor, BlocksCode, BlockLabels;
    var labels := ReserveLabels(u.order, b);
    r := EmitBlocks(u, Context(u.base, u.alloc, calls, labels), b);
  }
}
