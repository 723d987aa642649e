/** Which labels generated code marks: each one once, and only its own. */
module LabelProofs {
  import opened Wrappers
  import opened Sequences
  import opened Evm
  import opened Lowered
  import opened Shuffler
  import opened Codegen

  /** The labels marked by some code, in order. */
  function Marks(code: seq<Asm>): seq<Label> {
    if code == [] then []
    else (if code[0].Mark? then [code[0].mark] else []) + Marks(code[1..])
  }

  lemma {:induction false} MarksAppend(a: seq<Asm>, b: seq<Asm>)
    ensures Marks(a + b) == Marks(a) + Marks(b)
    decreases |a|
  {
    if a == [] {
      assert a + b == b;
      assert Marks(a) == [];
    } else {
      hide Marks;
      MarksAppend(a[1..], b);
      MarksUnfold(a);
      MarksUnfold(a + b);
      assert (a + b)[1..] == a[1..] + b;
    }
  }

  lemma MarksUnfold(code: seq<Asm>)
    requires code != []
    ensures Marks(code) == (if code[0].Mark? then [code[0].mark] else []) + Marks(code[1..])
  {
  }

  lemma {:induction false} MarkPlace(code: seq<Asm>, i: nat) returns (k: nat)
    requires i < |code| && code[i].Mark?
    ensures k < |Marks(code)| && Marks(code)[k] == code[i].mark && k == |Marks(code[..i])|
    ensures |Marks(code[..i + 1])| == k + 1
  {
    k := |Marks(code[..i])|;
    assert code == code[..i] + ([code[i]] + code[i + 1..]);
    assert code[..i + 1] == code[..i] + [code[i]];
    MarksAppend(code[..i], [code[i]] + code[i + 1..]);
    MarksAppend(code[..i], [code[i]]);
    MarksAppend([code[i]], code[i + 1..]);
    assert [code[i]][1..] == [];
  }

  lemma {:induction false} MarksOfPrefix(code: seq<Asm>, i: nat, j: nat)
    requires i <= j <= |code|
    ensures |Marks(code[..i])| <= |Marks(code[..j])|
  {
    assert code[..j] == code[..i] + code[i..j];
    MarksAppend(code[..i], code[i..j]);
  }

  /** Distinct marks are what makes every label unambiguous. */
  lemma DistinctMarks(code: seq<Asm>)
    requires Distinct(Marks(code))
    ensures UniqueMarks(code)
  {
    forall l, i: nat, j: nat | MarkAt(code, i, l) && MarkAt(code, j, l) ensures i == j {
      var ki := MarkPlace(code, i);
      var kj := MarkPlace(code, j);
      if i < j {
        MarksOfPrefix(code, i + 1, j);
      } else if j < i {
        MarksOfPrefix(code, j + 1, i);
      }
    }
  }

  /** The marks are distinct and lie between two labels. */
  ghost predicate MarksBetween(code: seq<Asm>, lo: Label, hi: Label) {
    && lo <= hi && Distinct(Marks(code))
    && forall l :: l in Marks(code) ==> lo <= l < hi
  }

  lemma BetweenJoin(a: seq<Asm>, b: seq<Asm>, lo: Label, mid: Label, hi: Label)
    requires MarksBetween(a, lo, mid) && MarksBetween(b, mid, hi)
    ensures MarksBetween(a + b, lo, hi)
  {
    hide Marks;
    MarksAppend(a, b);
    DistinctJoin(Marks(a), Marks(b));
    assert forall l :: l in Marks(a + b) ==> l in Marks(a) || l in Marks(b);
  }

  lemma NoMarksBetween(code: seq<Asm>, l: Label)
    requires Marks(code) == []
    ensures MarksBetween(code, l, l)
  {
  }

  // ---------------------------------------------------------------------------
  // Code without labels
  // ---------------------------------------------------------------------------

  lemma {:induction false} NoMarks(code: seq<Asm>)
    requires forall i :: 0 <= i < |code| ==> !code[i].Mark?
    ensures Marks(code) == []
  {
    if code != [] {
      NoMarks(code[1..]);
    }
  }

  lemma {:induction false} ShuffleMarks(ops: seq<ShuffleOp>, base: nat)
    requires EmitShuffle(ops, base).Ok?
    ensures forall i :: 0 <= i < |EmitShuffle(ops, base).value.code| ==> !EmitShuffle(ops, base).value.code[i].Mark?
  {
    hide MemoryOffset;
    if ops != [] {
      ShuffleMarks(ops[1..], base);
    }
  }

  lemma OperandMarks(o: Operand, base: nat, entry: seq<Slot>, bs: seq<Slot>, extra: nat)
    requires OperandCode(o, base, entry, bs, extra).Ok?
    ensures Marks(OperandCode(o, base, entry, bs, extra).value) == []
  {
    hide MemoryOffset;
    NoMarks(OperandCode(o, base, entry, bs, extra).value);
  }

  lemma {:induction false} ArgumentMarks(args: seq<Operand>, base: nat, entry: seq<Slot>, bs: seq<Slot>)
    requires ArgumentsCode(args, base, entry, bs).Ok?
    ensures Marks(ArgumentsCode(args, base, entry, bs).value) == []
  {
    hide OperandCode, Marks;
    if args == [] {
      NoMarks([]);
    } else {
      var n := |args| - 1;
      ArgumentMarks(args[..n], base, entry, bs);
      OperandMarks(args[n], base, entry, bs, n);
      MarksAppend(ArgumentsCode(args[..n], base, entry, bs).value, OperandCode(args[n], base, entry, bs, n).value);
    }
  }

  lemma StoreMarks(dest: Slot, ctx: Context, entry: seq<Slot>, bs: seq<Slot>)
    requires StoreCode(dest, ctx, entry, bs).Ok?
    ensures Marks(StoreCode(dest, ctx, entry, bs).value.0) == []
  {
    hide MemoryOffset;
    NoMarks(StoreCode(dest, ctx, entry, bs).value.0);
  }

  lemma ValueMarks(inst: Instruction, base: nat, entry: seq<Slot>, bs: seq<Slot>)
    requires !inst.Call? && !inst.StorageStore? && ValueCode(inst, base, entry, bs).Ok?
    ensures Marks(ValueCode(inst, base, entry, bs).value) == []
  {
    hide OperandCode, Marks;
    match inst
    case BinaryOp(_, op, left, right) =>
      var r, l := OperandCode(right, base, entry, bs, 0).value, OperandCode(left, base, entry, bs, 1).value;
      OperandMarks(right, base, entry, bs, 0);
      OperandMarks(left, base, entry, bs, 1);
      NoMarks(BinaryCode(op));
      MarksAppend(r, l);
      MarksAppend(r + l, BinaryCode(op));
    case UnaryOp(_, op, o) =>
      if op == Negate {
        OperandMarks(o, base, entry, bs, 1);
        var code := OperandCode(o, base, entry, bs, 1).value;
        NoMarks([PushWord(0)]);
        NoMarks([Do(SUB)]);
        MarksAppend([PushWord(0)], code);
        MarksAppend([PushWord(0)] + code, [Do(SUB)]);
      } else {
        OperandMarks(o, base, entry, bs, 0);
        NoMarks([Do(ISZERO)]);
        MarksAppend(OperandCode(o, base, entry, bs, 0).value, [Do(ISZERO)]);
      }
    case Copy(_, o) => OperandMarks(o, base, entry, bs, 0);
    case LoadConstant(_, _) => NoMarks(ValueCode(inst, base, entry, bs).value);
    case StorageLoad(_, _) => NoMarks(ValueCode(inst, base, entry, bs).value);
  }

  lemma CallJumpMarks(continuation: Label, callee: Label)
    ensures Marks(CallJump(continuation, callee)) == [continuation]
  {
    var before, after := [PushLabel(continuation), PushLabel(callee), Do(JUMP)], [Do(JUMPDEST)];
    assert CallJump(continuation, callee) == before + ([Mark(continuation)] + after);
    NoMarks(before);
    NoMarks(after);
    MarksAppend(before, [Mark(continuation)] + after);
    assert ([Mark(continuation)] + after)[1..] == after;
  }

  /** An instruction marks only the labels it takes. */
  lemma InstructionMarks(inst: Instruction, ctx: Context, entry: seq<Slot>, bs: seq<Slot>, next: Label)
    requires InstructionCode(inst, ctx, entry, bs, next).Ok?
    ensures MarksBetween(InstructionCode(inst, ctx, entry, bs, next).value.code, next,
                         InstructionCode(inst, ctx, entry, bs, next).value.next)
  {
    hide ValueCode, StoreCode, OperandCode, Marks, CallJump;
    match inst
    case Call(result, target, args) =>
      var pushes, store := ArgumentsCode(args, ctx.base, entry, bs).value, StoreResult(result, ctx, entry, bs).value.0;
      var jump := CallJump(next, ctx.calls[target.fn].entryLabel);
      ArgumentMarks(args, ctx.base, entry, bs);
      CallJumpMarks(next, ctx.calls[target.fn].entryLabel);
      if result.Some? {
        StoreMarks(result.value, ctx, entry, bs);
      } else {
        NoMarks(store);
      }
      MarksAppend(pushes, jump);
      MarksAppend(pushes + jump, store);
    case StorageStore(key, o) =>
      OperandMarks(o, ctx.base, entry, bs, 0);
      NoMarks([PushWord(key), Do(SSTORE)]);
      MarksAppend(OperandCode(o, ctx.base, entry, bs, 0).value, [PushWord(key), Do(SSTORE)]);
    case _ =>
      ValueMarks(inst, ctx.base, entry, bs);
      StoreMarks(inst.dest, ctx, entry, bs);
      MarksAppend(ValueCode(inst, ctx.base, entry, bs).value, StoreCode(inst.dest, ctx, entry, bs).value.0);
  }

  lemma ShuffleCodeMarks(current: seq<Slot>, target: seq<Slot>, base: nat)
    requires ShuffleCode(current, target, base).Ok?
    ensures Marks(ShuffleCode(current, target, base).value.code) == []
  {
    hide Plan, EmitShuffle;
    ShuffleMarks(Plan(Present(current), target), base);
    NoMarks(ShuffleCode(current, target, base).value.code);
  }

  lemma PlainTail(code: seq<Asm>, tail: seq<Asm>)
    requires Marks(code) == [] && forall i :: 0 <= i < |tail| ==> !tail[i].Mark?
    ensures Marks(code + tail) == []
  {
    hide Marks;
    NoMarks(tail);
    MarksAppend(code, tail);
  }

  lemma ConditionMarks(condition: Operand, current: seq<Slot>, thenLayout: seq<Slot>, base: nat)
    requires ConditionCode(condition, current, thenLayout, base).Ok?
    ensures Marks(ConditionCode(condition, current, thenLayout, base).value.code) == []
  {
    hide ShuffleCode, Marks;
    match condition
    case Location(s) => ShuffleCodeMarks(current, [s] + thenLayout, base);
    case Literal(c) =>
      ShuffleCodeMarks(current, thenLayout, base);
      PlainTail(ShuffleCode(current, thenLayout, base).value.code, ConstantCode(c).value);
  }

  lemma TerminatorMarks(t: Terminator, ctx: Context, entry: seq<Slot>, bs: seq<Slot>)
    requires TerminatorCode(t, ctx, entry, bs).Ok?
    ensures Marks(TerminatorCode(t, ctx, entry, bs).value.code) == []
  {
    hide ShuffleCode, ConditionCode, Marks;
    var current := bs + entry;
    match t
    case Jump(target) =>
      ShuffleCodeMarks(current, Layout(ctx.alloc, target), ctx.base);
      PlainTail(ShuffleCode(current, Layout(ctx.alloc, target), ctx.base).value.code, JumpCode(ctx.labels[target]));
    case Branch(condition, thenBlock, elseBlock) =>
      var thenLayout, elseLayout := Layout(ctx.alloc, thenBlock), Layout(ctx.alloc, elseBlock);
      ConditionMarks(condition, current, thenLayout, ctx.base);
      ShuffleCodeMarks(thenLayout, elseLayout, ctx.base);
      var test, e := ConditionCode(condition, current, thenLayout, ctx.base).value.code,
          ShuffleCode(thenLayout, elseLayout, ctx.base).value.code;
      PlainTail(test, BranchCode(ctx.labels[thenBlock]));
      PlainTail(e, JumpCode(ctx.labels[elseBlock]));
      MarksAppend(test + BranchCode(ctx.labels[thenBlock]), e + JumpCode(ctx.labels[elseBlock]));
    case Return(value) => ReturnMarks(value, ctx, entry, bs);
    case Unreachable =>
      ShuffleCodeMarks(current, [], ctx.base);
      PlainTail(ShuffleCode(current, [], ctx.base).value.code, [Do(INVALID)]);
  }

  lemma ReturnMarks(value: Option<Operand>, ctx: Context, entry: seq<Slot>, bs: seq<Slot>)
    requires TerminatorCode(Return(value), ctx, entry, bs).Ok?
    ensures Marks(TerminatorCode(Return(value), ctx, entry, bs).value.code) == []
  {
    hide ShuffleCode, Marks;
    var current := bs + entry;
    if value.None? {
      ShuffleCodeMarks(current, [], ctx.base);
      PlainTail(ShuffleCode(current, [], ctx.base).value.code, [Do(JUMP)]);
    } else if value.value.Location? {
      ShuffleCodeMarks(current, [value.value.slot], ctx.base);
      PlainTail(ShuffleCode(current, [value.value.slot], ctx.base).value.code, [Do(SWAP(1)), Do(JUMP)]);
    } else {
      var e, push := ShuffleCode(current, [], ctx.base).value.code, ConstantCode(value.value.c).value;
      ShuffleCodeMarks(current, [], ctx.base);
      PlainTail(e, push);
      PlainTail(e + push, [Do(SWAP(1)), Do(JUMP)]);
    }
  }

  // ---------------------------------------------------------------------------
  // Blocks and functions
  // ---------------------------------------------------------------------------

  lemma {:induction false} RestMarks(
      insts: seq<Instruction>, t: Terminator, ctx: Context, entry: seq<Slot>, bs: seq<Slot>, next: Label)
    requires RestCode(insts, t, ctx, entry, bs, next).Ok?
    ensures MarksBetween(RestCode(insts, t, ctx, entry, bs, next).value.code, next,
                         RestCode(insts, t, ctx, entry, bs, next).value.next)
    decreases |insts|
  {
    hide InstructionCode, TerminatorCode, MarksBetween;
    if insts == [] {
      TerminatorMarks(t, ctx, entry, bs);
      NoMarksBetween(TerminatorCode(t, ctx, entry, bs).value.code, next);
    } else {
      var head := InstructionCode(insts[0], ctx, entry, bs, next).value;
      InstructionMarks(insts[0], ctx, entry, bs, next);
      RestMarks(insts[1..], t, ctx, entry, head.blockStack, head.next);
      BetweenJoin(head.code, RestCode(insts[1..], t, ctx, entry, head.blockStack, head.next).value.code, next,
          head.next,
                  RestCode(insts, t, ctx, entry, bs, next).value.next);
    }
  }

  lemma {:induction false} LoadMarks(slots: seq<Slot>, base: nat)
    ensures Marks(LoadAll(slots, base)) == []
  {
    hide Marks, MemoryOffset;
    if slots == [] {
      NoMarks([]);
    } else {
      LoadMarks(slots[1..], base);
      PlainTail(LoadAll(slots[1..], base), [PushWord(MemoryOffset(base, slots[0])), Do(MLOAD)]);
    }
  }

  lemma PrologueMarks(u: Unit, entry: seq<Slot>)
    requires Prologue(u, entry).Ok?
    ensures Marks(Prologue(u, entry).value.code) == []
  {
    hide Marks, ShuffleCode, LoadAll, ArgumentOrder;
    if u.fn.isExternal {
      LoadMarks(entry, u.base);
    } else if u.fn.parameters == [] {
      NoMarks([]);
    } else {
      var swap := Do(SwapForPosition(|u.fn.parameters|).value);
      ShuffleCodeMarks(ArgumentOrder(u.fn.parameters), entry, u.base);
      NoMarks([swap]);
      MarksAppend([swap], ShuffleCode(ArgumentOrder(u.fn.parameters), entry, u.base).value.code);
    }
  }

  lemma BlockMarks(u: Unit, ctx: Context, b: BlockId, next: Label)
    requires BlockCode(u, ctx, b, next).Ok?
    ensures b in ctx.labels
    ensures exists rest ::
              && Marks(BlockCode(u, ctx, b, next).value.code) == [ctx.labels[b]] + rest && Distinct(rest)
              && next <= BlockCode(u, ctx, b, next).value.next
              && forall l :: l in rest ==> next <= l < BlockCode(u, ctx, b, next).value.next
  {
    hide RestCode, Prologue, Marks;
    var entry := Layout(ctx.alloc, b);
    var block, l := u.fn.cfg.blocks[b], ctx.labels[b];
    var head := if b == u.fn.cfg.entry then Prologue(u, entry).value.code else [];
    var body := RestCode(block.instructions, block.terminator, ctx, entry, [], next).value.code;
    if b == u.fn.cfg.entry {
      PrologueMarks(u, entry);
    } else {
      NoMarks([]);
    }
    RestMarks(block.instructions, block.terminator, ctx, entry, [], next);
    LandingMarks(l);
    MarksAppend([Mark(l), Do(JUMPDEST)], head);
    MarksAppend([Mark(l), Do(JUMPDEST)] + head, body);
    assert Marks(BlockCode(u, ctx, b, next).value.code) == [l] + Marks(body);
  }

  lemma LandingMarks(l: Label)
    ensures Marks([Mark(l), Do(JUMPDEST)]) == [l]
  {
    assert [Mark(l), Do(JUMPDEST)][1..] == [Do(JUMPDEST)];
    NoMarks([Do(JUMPDEST)]);
  }

  /** Distinct marks, each the label of a block of the order or one from `next` on. */
  ghost predicate BlocksMarked(ctx: Context, order: seq<BlockId>, marks: seq<Label>, next: Label, last: Label) {
    && next <= last && Distinct(marks)
    && forall l :: l in marks ==> next <= l < last || exists b :: b in order && b in ctx.labels && ctx.labels[b] == l
  }

  ghost predicate LabelsApart(ctx: Context, order: seq<BlockId>, next: Label) {
    && (forall b :: b in order ==> b in ctx.labels && ctx.labels[b] < next)
    && (forall b, c :: b in order && c in order && b != c ==> ctx.labels[b] != ctx.labels[c])
  }

  lemma {:induction false} BlocksMarks(u: Unit, ctx: Context, order: seq<BlockId>, next: Label)
    requires BlocksCode(u, ctx, order, next).Ok? && Distinct(order) && LabelsApart(ctx, order, next)
    ensures BlocksMarked(ctx, order, Marks(BlocksCode(u, ctx, order, next).value.code), next,
                         BlocksCode(u, ctx, order, next).value.next)
    decreases |order|
  {
    hide BlockCode, Marks;
    if order == [] {
      NoMarks([]);
    } else {
      var head := BlockCode(u, ctx, order[0], next).value;
      var tail := BlocksCode(u, ctx, order[1..], head.next).value;
      BlockMarks(u, ctx, order[0], next);
      assert order == [order[0]] + order[1..];
      BlocksMarks(u, ctx, order[1..], head.next);
      MarksAppend(head.code, tail.code);
      var rest :| Marks(head.code) == [ctx.labels[order[0]]] + rest && Distinct(rest)
        && forall l :: l in rest ==> next <= l < head.next;
      JoinBlocks(ctx, order, rest, Marks(tail.code), next, head.next, tail.next);
    }
  }

  lemma JoinBlocks(
      ctx: Context, order: seq<BlockId>, rest: seq<Label>, more: seq<Label>, next: Label, mid: Label, last: Label)
    requires order != [] && Distinct(order) && LabelsApart(ctx, order, next)
    requires next <= mid && Distinct(rest) && forall l :: l in rest ==> next <= l < mid
    requires BlocksMarked(ctx, order[1..], more, mid, last)
    ensures BlocksMarked(ctx, order, [ctx.labels[order[0]]] + rest + more, next, last)
  {
    var l0 := ctx.labels[order[0]];
    var marks := [l0] + rest + more;
    assert order == [order[0]] + order[1..];
    forall l | l in more ensures l != l0 && l !in rest {
      if !(mid <= l < last) {
        var b :| b in order[1..] && b in ctx.labels && ctx.labels[b] == l;
        assert b != order[0];
      }
    }
    DistinctJoin([l0], rest);
    DistinctJoin([l0] + rest, more);
  }

  lemma {:induction false} BlockLabelsApart(order: seq<BlockId>, first: Label)
    requires Distinct(order)
    ensures forall b, c :: b in order && c in order && b != c ==>
        BlockLabels(order, first)[b] != BlockLabels(order, first)[c]
  {
    if order != [] {
      var n := |order| - 1;
      assert order == order[..n] + [order[n]];
      BlockLabelsApart(order[..n], first);
    }
  }

  /** A function marks labels of its own range, each once. */
  lemma FunctionMarks(u: Unit, calls: map<FnId, CallInfo>, first: Label)
    requires FunctionCode(u, calls, first).Ok? && Distinct(u.order)
    ensures MarksBetween(FunctionCode(u, calls, first).value.code, first, FunctionCode(u, calls, first).value.next)
  {
    hide BlocksCode, Marks;
    BlockLabelsApart(u.order, first);
    BlocksMarks(u, ContextOf(u, calls, first), u.order, first + |u.order|);
  }
}
