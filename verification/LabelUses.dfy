/**
 * Every label that generated code pushes is marked somewhere, and code generation
 * fails only for reasons that lie in the program: no block and no label is ever
 * missing.
 */
module LabelUses {
  import opened Wrappers
  import opened Evm
  import opened Lowered
  import opened Semantics
  import opened Shuffler
  import opened Codegen

  /** A pushed label is known from outside or marked by the code itself. */
  ghost predicate Closed(code: seq<Asm>, known: set<Label>) {
    forall i :: 0 <= i < |code| && code[i].PushLabel? ==> code[i].target in known || Mark(code[i].target) in code
  }

  /** The reasons for which the source gives up that a programmer can do something about. */
  predicate ProgramFault(e: CodegenError) {
    e.StringConstant? || e.DepthPanic? || e.UnknownCallee? || e.ArgumentCount? || e.ExternalCall?
        || e.TooManyParameters?
  }

  ghost predicate CodeGood(r: Result<seq<Asm>>, known: set<Label>) {
    match r case Ok(code) => Closed(code, known) case Err(e) => ProgramFault(e)
  }

  ghost predicate EmittedGood(r: Result<Emitted>, known: set<Label>) {
    match r case Ok(e) => Closed(e.code, known) case Err(e) => ProgramFault(e)
  }

  ghost predicate PieceGood(r: Result<Piece>, known: set<Label>) {
    match r case Ok(p) => Closed(p.code, known) case Err(e) => ProgramFault(e)
  }

  lemma ClosedJoin(a: seq<Asm>, b: seq<Asm>, known: set<Label>)
    requires Closed(a, known) && Closed(b, known)
    ensures Closed(a + b, known)
  {
    forall i | 0 <= i < |a + b| && (a + b)[i].PushLabel?
      ensures (a + b)[i].target in known || Mark((a + b)[i].target) in a + b
    {
      if i < |a| {
        assert (a + b)[i] == a[i];
      } else {
        assert (a + b)[i] == b[i - |a|];
      }
    }
  }

  lemma Unlabelled(code: seq<Asm>, known: set<Label>)
    requires forall i :: 0 <= i < |code| ==> !code[i].PushLabel?
    ensures Closed(code, known)
  {
  }

  // ---------------------------------------------------------------------------
  // Instructions
  // ---------------------------------------------------------------------------

  lemma {:induction false} ShuffleGood(ops: seq<ShuffleOp>, base: nat, known: set<Label>)
    ensures EmittedGood(EmitShuffle(ops, base), known)
  {
    hide MemoryOffset, Closed;
    if ops == [] {
      Unlabelled([], known);
    } else {
      ShuffleGood(ops[1..], base, known);
      OpGood(ops[0], base, known);
      if EmitOp(ops[0], base).Ok? && EmitShuffle(ops[1..], base).Ok? {
        ClosedJoin(EmitOp(ops[0], base).value.code, EmitShuffle(ops[1..], base).value.code, known);
      }
    }
  }

  lemma OpGood(op: ShuffleOp, base: nat, known: set<Label>)
    ensures EmittedGood(EmitOp(op, base), known)
  {
    hide MemoryOffset, DupForPosition, SwapForPosition;
  }

  lemma ShuffleCodeGood(current: seq<Slot>, target: seq<Slot>, base: nat, known: set<Label>)
    ensures EmittedGood(ShuffleCode(current, target, base), known)
  {
    ShuffleGood(Plan(Present(current), target), base, known);
  }

  lemma ConstantGood(c: Constant, known: set<Label>)
    ensures CodeGood(ConstantCode(c), known)
  {
    hide Int64Word;
  }

  lemma OperandGood(o: Operand, base: nat, entry: seq<Slot>, bs: seq<Slot>, extra: nat, known: set<Label>)
    ensures CodeGood(OperandCode(o, base, entry, bs, extra), known)
  {
    hide MemoryOffset, Int64Word, DupForPosition;
  }

  lemma {:induction false} ArgumentsGood(
      args: seq<Operand>, base: nat, entry: seq<Slot>, bs: seq<Slot>, known: set<Label>)
    ensures CodeGood(ArgumentsCode(args, base, entry, bs), known)
  {
    hide OperandCode, Closed;
    if args == [] {
      Unlabelled([], known);
    } else {
      var n := |args| - 1;
      ArgumentsGood(args[..n], base, entry, bs, known);
      OperandGood(args[n], base, entry, bs, n, known);
      if ArgumentsCode(args[..n], base, entry, bs).Ok? && OperandCode(args[n], base, entry, bs, n).Ok? {
        ClosedJoin(ArgumentsCode(args[..n], base, entry, bs).value, OperandCode(args[n], base, entry, bs, n).value,
            known);
      }
    }
  }

  lemma StoreGood(dest: Slot, ctx: Context, entry: seq<Slot>, bs: seq<Slot>, known: set<Label>)
    ensures match StoreCode(dest, ctx, entry, bs) case Ok(store) => Closed(store.0, known) case Err(e) =>
        ProgramFault(e)
  {
    hide MemoryOffset, SwapForPosition;
  }

  lemma StoreResultGood(result: Option<Slot>, ctx: Context, entry: seq<Slot>, bs: seq<Slot>, known: set<Label>)
    ensures match StoreResult(result, ctx, entry, bs) case Ok(store) => Closed(store.0, known) case Err(e) =>
        ProgramFault(e)
  {
    hide StoreCode;
    if result.Some? {
      StoreGood(result.value, ctx, entry, bs, known);
    }
  }

  lemma ValueGood(inst: Instruction, base: nat, entry: seq<Slot>, bs: seq<Slot>, known: set<Label>)
    requires !inst.Call? && !inst.StorageStore?
    ensures CodeGood(ValueCode(inst, base, entry, bs), known)
  {
    hide OperandCode, Closed, ConstantCode;
    match inst
    case BinaryOp(_, op, left, right) =>
      var r, l := OperandCode(right, base, entry, bs, 0), OperandCode(left, base, entry, bs, 1);
      OperandGood(right, base, entry, bs, 0, known);
      OperandGood(left, base, entry, bs, 1, known);
      if r.Ok? && l.Ok? {
        ClosedJoin(r.value, l.value, known);
        Unlabelled(BinaryCode(op), known);
        ClosedJoin(r.value + l.value, BinaryCode(op), known);
      }
    case UnaryOp(_, op, o) =>
      if op == Negate {
        var code := OperandCode(o, base, entry, bs, 1);
        OperandGood(o, base, entry, bs, 1, known);
        if code.Ok? {
          Unlabelled([PushWord(0)], known);
          Unlabelled([Do(SUB)], known);
          ClosedJoin([PushWord(0)], code.value, known);
          ClosedJoin([PushWord(0)] + code.value, [Do(SUB)], known);
        }
      } else {
        var code := OperandCode(o, base, entry, bs, 0);
        OperandGood(o, base, entry, bs, 0, known);
        if code.Ok? {
          Unlabelled([Do(ISZERO)], known);
          ClosedJoin(code.value, [Do(ISZERO)], known);
        }
      }
    case Copy(_, o) => OperandGood(o, base, entry, bs, 0, known);
    case LoadConstant(_, c) => ConstantGood(c, known);
    case StorageLoad(_, key) => Unlabelled([PushWord(key), Do(SLOAD)], known);
  }

  ghost predicate EntriesKnown(calls: map<FnId, CallInfo>, known: set<Label>) {
    forall fn :: fn in calls ==> calls[fn].entryLabel in known
  }

  /** A call pushes the continuation that it marks, and the callee's entry. */
  lemma CallJumpClosed(continuation: Label, callee: Label, known: set<Label>)
    requires callee in known
    ensures Closed(CallJump(continuation, callee), known)
  {
    assert CallJump(continuation, callee)[3] == Mark(continuation);
  }

  lemma CallGood(
      result: Option<Slot>, target: CallTarget, args: seq<Operand>,
      ctx: Context, entry: seq<Slot>, bs: seq<Slot>, next: Label, known: set<Label>)
    requires EntriesKnown(ctx.calls, known)
    ensures PieceGood(CallCode(result, target, args, ctx, entry, bs, next), known)
  {
    hide StoreResult, ArgumentsCode, CallJump, Closed;
    if target.Internal? && target.fn in ctx.calls {
      var pushes, store := ArgumentsCode(args, ctx.base, entry, bs), StoreResult(result, ctx, entry, bs);
      var jump := CallJump(next, ctx.calls[target.fn].entryLabel);
      ArgumentsGood(args, ctx.base, entry, bs, known);
      StoreResultGood(result, ctx, entry, bs, known);
      CallJumpClosed(next, ctx.calls[target.fn].entryLabel, known);
      if pushes.Ok? && store.Ok? {
        ClosedJoin(pushes.value, jump, known);
        ClosedJoin(pushes.value + jump, store.value.0, known);
      }
    }
  }

  lemma InstructionGood(
      inst: Instruction, ctx: Context, entry: seq<Slot>, bs: seq<Slot>, next: Label, known: set<Label>)
    requires EntriesKnown(ctx.calls, known)
    ensures PieceGood(InstructionCode(inst, ctx, entry, bs, next), known)
  {
    hide ValueCode, StoreCode, OperandCode, CallCode, Closed;
    match inst
    case Call(result, target, args) => CallGood(result, target, args, ctx, entry, bs, next, known);
    case StorageStore(key, o) =>
      OperandGood(o, ctx.base, entry, bs, 0, known);
      Unlabelled([PushWord(key), Do(SSTORE)], known);
      if OperandCode(o, ctx.base, entry, bs, 0).Ok? {
        ClosedJoin(OperandCode(o, ctx.base, entry, bs, 0).value, [PushWord(key), Do(SSTORE)], known);
      }
    case _ =>
      ValueGood(inst, ctx.base, entry, bs, known);
      StoreGood(inst.dest, ctx, entry, bs, known);
      if ValueCode(inst, ctx.base, entry, bs).Ok? && StoreCode(inst.dest, ctx, entry, bs).Ok? {
        ClosedJoin(ValueCode(inst, ctx.base, entry, bs).value, StoreCode(inst.dest, ctx, entry, bs).value.0, known);
      }
  }

  // ---------------------------------------------------------------------------
  // Terminators
  // ---------------------------------------------------------------------------

  ghost predicate TargetsKnown(t: Terminator, ctx: Context, known: set<Label>) {
    forall b :: b in TerminatorTargets(t) ==> b in ctx.labels && ctx.labels[b] in known
  }

  lemma PushKnown(l: Label, known: set<Label>)
    requires l in known
    ensures Closed(JumpCode(l), known) && Closed(BranchCode(l), known)
  {
  }

  lemma ConditionGood(condition: Operand, current: seq<Slot>, thenLayout: seq<Slot>, base: nat, known: set<Label>)
    ensures EmittedGood(ConditionCode(condition, current, thenLayout, base), known)
  {
    hide ShuffleCode, Closed, ConstantCode;
    match condition
    case Location(s) => ShuffleCodeGood(current, [s] + thenLayout, base, known);
    case Literal(c) =>
      ShuffleCodeGood(current, thenLayout, base, known);
      ConstantGood(c, known);
      if ShuffleCode(current, thenLayout, base).Ok? && ConstantCode(c).Ok? {
        ClosedJoin(ShuffleCode(current, thenLayout, base).value.code, ConstantCode(c).value, known);
      }
  }

  lemma ReturnGood(value: Option<Operand>, ctx: Context, entry: seq<Slot>, bs: seq<Slot>, known: set<Label>)
    ensures EmittedGood(TerminatorCode(Return(value), ctx, entry, bs), known)
  {
    hide ShuffleCode, Closed, ConstantCode;
    var current := bs + entry;
    var end := [Do(SWAP(1)), Do(JUMP)];
    Unlabelled(end, known);
    Unlabelled([Do(JUMP)], known);
    ShuffleCodeGood(current, [], ctx.base, known);
    if value.None? {
      if ShuffleCode(current, [], ctx.base).Ok? {
        ClosedJoin(ShuffleCode(current, [], ctx.base).value.code, [Do(JUMP)], known);
      }
    } else if value.value.Location? {
      ShuffleCodeGood(current, [value.value.slot], ctx.base, known);
      if ShuffleCode(current, [value.value.slot], ctx.base).Ok? {
        ClosedJoin(ShuffleCode(current, [value.value.slot], ctx.base).value.code, end, known);
      }
    } else {
      ConstantGood(value.value.c, known);
      if ShuffleCode(current, [], ctx.base).Ok? && ConstantCode(value.value.c).Ok? {
        var e, push := ShuffleCode(current, [], ctx.base).value.code, ConstantCode(value.value.c).value;
        ClosedJoin(e, push, known);
        ClosedJoin(e + push, end, known);
      }
    }
  }

  lemma BranchGood(
      condition: Operand, thenBlock: BlockId, elseBlock: BlockId, ctx: Context, entry: seq<Slot>, bs: seq<Slot>,
      known: set<Label>)
    requires TargetsKnown(Branch(condition, thenBlock, elseBlock), ctx, known)
    ensures EmittedGood(TerminatorCode(Branch(condition, thenBlock, elseBlock), ctx, entry, bs), known)
  {
    hide ShuffleCode, ConditionCode, Closed, JumpCode, BranchCode;
    var current := bs + entry;
    assert thenBlock in ctx.labels && ctx.labels[thenBlock] in known && elseBlock in ctx.labels
        && ctx.labels[elseBlock] in known;
    var thenLayout, elseLayout := Layout(ctx.alloc, thenBlock), Layout(ctx.alloc, elseBlock);
    ConditionGood(condition, current, thenLayout, ctx.base, known);
    ShuffleCodeGood(thenLayout, elseLayout, ctx.base, known);
    PushKnown(ctx.labels[thenBlock], known);
    PushKnown(ctx.labels[elseBlock], known);
    var test, e := ConditionCode(condition, current, thenLayout, ctx.base),
        ShuffleCode(thenLayout, elseLayout, ctx.base);
    if test.Ok? && e.Ok? {
      ClosedJoin(test.value.code, BranchCode(ctx.labels[thenBlock]), known);
      ClosedJoin(e.value.code, JumpCode(ctx.labels[elseBlock]), known);
      ClosedJoin(test.value.code + BranchCode(ctx.labels[thenBlock]), e.value.code + JumpCode(ctx.labels[elseBlock]),
          known);
    }
  }

  lemma TerminatorGood(t: Terminator, ctx: Context, entry: seq<Slot>, bs: seq<Slot>, known: set<Label>)
    requires TargetsKnown(t, ctx, known)
    ensures EmittedGood(TerminatorCode(t, ctx, entry, bs), known)
  {
    hide ShuffleCode, ConditionCode, Closed, JumpCode, BranchCode;
    var current := bs + entry;
    match t
    case Jump(target) =>
      assert target in ctx.labels && ctx.labels[target] in known;
      ShuffleCodeGood(current, Layout(ctx.alloc, target), ctx.base, known);
      PushKnown(ctx.labels[target], known);
      if ShuffleCode(current, Layout(ctx.alloc, target), ctx.base).Ok? {
        ClosedJoin(ShuffleCode(current, Layout(ctx.alloc, target), ctx.base).value.code, JumpCode(ctx.labels[target]),
            known);
      }
    case Branch(condition, thenBlock, elseBlock) => BranchGood(condition, thenBlock, elseBlock, ctx, entry, bs, known);
    case Return(value) => ReturnGood(value, ctx, entry, bs, known);
    case Unreachable =>
      ShuffleCodeGood(current, [], ctx.base, known);
      Unlabelled([Do(INVALID)], known);
      if ShuffleCode(current, [], ctx.base).Ok? {
        ClosedJoin(ShuffleCode(current, [], ctx.base).value.code, [Do(INVALID)], known);
      }
  }

  // ---------------------------------------------------------------------------
  // Blocks and functions
  // ---------------------------------------------------------------------------

  lemma {:induction false} RestGood(
      insts: seq<Instruction>, t: Terminator, ctx: Context, entry: seq<Slot>, bs: seq<Slot>, next: Label,
      known: set<Label>)
    requires EntriesKnown(ctx.calls, known) && TargetsKnown(t, ctx, known)
    ensures PieceGood(RestCode(insts, t, ctx, entry, bs, next), known)
    decreases |insts|
  {
    hide InstructionCode, TerminatorCode, Closed, TargetsKnown, EntriesKnown;
    if insts == [] {
      TerminatorGood(t, ctx, entry, bs, known);
    } else {
      var head := InstructionCode(insts[0], ctx, entry, bs, next);
      InstructionGood(insts[0], ctx, entry, bs, next, known);
      if head.Ok? {
        var tail := RestCode(insts[1..], t, ctx, entry, head.value.blockStack, head.value.next);
        RestGood(insts[1..], t, ctx, entry, head.value.blockStack, head.value.next, known);
        if tail.Ok? {
          ClosedJoin(head.value.code, tail.value.code, known);
        }
      }
    }
  }

  lemma {:induction false} LoadClosed(slots: seq<Slot>, base: nat, known: set<Label>)
    ensures Closed(LoadAll(slots, base), known)
  {
    hide MemoryOffset, Closed;
    if slots == [] {
      Unlabelled([], known);
    } else {
      LoadClosed(slots[1..], base, known);
      Unlabelled([PushWord(MemoryOffset(base, slots[0])), Do(MLOAD)], known);
      ClosedJoin(LoadAll(slots[1..], base), [PushWord(MemoryOffset(base, slots[0])), Do(MLOAD)], known);
    }
  }

  lemma PrologueGood(u: Unit, entry: seq<Slot>, known: set<Label>)
    ensures EmittedGood(Prologue(u, entry), known)
  {
    hide ShuffleCode, LoadAll, ArgumentOrder, Closed, SwapForPosition;
    if u.fn.isExternal {
      LoadClosed(entry, u.base, known);
    } else if u.fn.parameters == [] {
      Unlabelled([], known);
    } else if SwapForPosition(|u.fn.parameters|).Some? {
      var swap := Do(SwapForPosition(|u.fn.parameters|).value);
      var e := ShuffleCode(ArgumentOrder(u.fn.parameters), entry, u.base);
      ShuffleCodeGood(ArgumentOrder(u.fn.parameters), entry, u.base, known);
      Unlabelled([swap], known);
      if e.Ok? {
        ClosedJoin([swap], e.value.code, known);
      }
    }
  }

  /** The block exists, has a label, and jumps to blocks with known labels. */
  ghost predicate BlockReady(u: Unit, ctx: Context, b: BlockId, known: set<Label>) {
    b in u.fn.cfg.blocks && b in ctx.labels && TargetsKnown(u.fn.cfg.blocks[b].terminator, ctx, known)
  }

  lemma BlockGood(u: Unit, ctx: Context, b: BlockId, next: Label, known: set<Label>)
    requires EntriesKnown(ctx.calls, known) && BlockReady(u, ctx, b, known)
    ensures PieceGood(BlockCode(u, ctx, b, next), known)
    ensures BlockCode(u, ctx, b, next).Ok? ==>
              BlockCode(u, ctx, b, next).value.code != []
                  && BlockCode(u, ctx, b, next).value.code[0] == Mark(ctx.labels[b])
  {
    hide RestCode, Prologue, Closed, TargetsKnown, EntriesKnown;
    var entry, block, l := Layout(ctx.alloc, b), u.fn.cfg.blocks[b], ctx.labels[b];
    var head := if b == u.fn.cfg.entry then Prologue(u, entry) else Ok(Emitted([], true));
    var body := RestCode(block.instructions, block.terminator, ctx, entry, [], next);
    PrologueGood(u, entry, known);
    RestGood(block.instructions, block.terminator, ctx, entry, [], next, known);
    Unlabelled([], known);
    Unlabelled([Mark(l), Do(JUMPDEST)], known);
    if head.Ok? && body.Ok? {
      ClosedJoin([Mark(l), Do(JUMPDEST)], head.value.code, known);
      ClosedJoin([Mark(l), Do(JUMPDEST)] + head.value.code, body.value.code, known);
    }
  }

  /** The code of some blocks is closed and marks each of their labels. */
  lemma {:induction false} BlocksGood(u: Unit, ctx: Context, order: seq<BlockId>, next: Label, known: set<Label>)
    requires EntriesKnown(ctx.calls, known) && forall b :: b in order ==> BlockReady(u, ctx, b, known)
    ensures PieceGood(BlocksCode(u, ctx, order, next), known)
    ensures BlocksCode(u, ctx, order, next).Ok? ==>
              forall b :: b in order ==>
                b in ctx.labels && Mark(ctx.labels[b]) in BlocksCode(u, ctx, order, next).value.code
    decreases |order|
  {
    hide BlockCode, Closed, EntriesKnown, TargetsKnown;
    if order == [] {
      Unlabelled([], known);
    } else {
      assert BlockReady(u, ctx, order[0], known);
      var head := BlockCode(u, ctx, order[0], next);
      BlockGood(u, ctx, order[0], next, known);
      if head.Ok? {
        var tail := BlocksCode(u, ctx, order[1..], head.value.next);
        BlocksGood(u, ctx, order[1..], head.value.next, known);
        if tail.Ok? {
          ClosedJoin(head.value.code, tail.value.code, known);
          MarksOfBoth(ctx, order, head.value.code, tail.value.code);
        }
      }
    }
  }

  lemma MarksOfBoth(ctx: Context, order: seq<BlockId>, head: seq<Asm>, tail: seq<Asm>)
    requires order != [] && forall b :: b in order ==> b in ctx.labels
    requires head != [] && head[0] == Mark(ctx.labels[order[0]])
    requires forall b :: b in order[1..] ==> Mark(ctx.labels[b]) in tail
    ensures forall b :: b in order ==> Mark(ctx.labels[b]) in head + tail
  {
    assert (head + tail)[0] == Mark(ctx.labels[order[0]]);
  }

  /** Every block of the order is there, and jumps only to blocks of the order. */
  ghost predicate OrderClosed(u: Unit) {
    forall b :: b in u.order ==>
      b in u.fn.cfg.blocks && forall c :: c in TerminatorTargets(u.fn.cfg.blocks[b].terminator) ==> c in u.order
  }

  /**
   * A function's code needs only entry labels from outside; and if there is no code,
   * the program is at fault.
   */
  lemma FunctionGood(u: Unit, calls: map<FnId, CallInfo>, first: Label, entries: set<Label>)
    requires OrderClosed(u) && EntriesKnown(calls, entries)
    ensures PieceGood(FunctionCode(u, calls, first), entries)
  {
    hide BlocksCode, BlockLabels;
    var ctx := ContextOf(u, calls, first);
    var own := set b | b in u.order :: ctx.labels[b];
    var known := entries + own;
    forall b | b in u.order ensures BlockReady(u, ctx, b, known) {
    }
    BlocksGood(u, ctx, u.order, first + |u.order|, known);
    if FunctionCode(u, calls, first).Ok? {
      var code := FunctionCode(u, calls, first).value.code;
      forall i | 0 <= i < |code| && code[i].PushLabel?
        ensures code[i].target in entries || Mark(code[i].target) in code
      {
        if code[i].target in own {
          var b :| b in u.order && ctx.labels[b] == code[i].target;
        }
      }
    }
  }
}
