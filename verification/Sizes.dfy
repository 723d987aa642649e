/**
 * How long the code of a function is, item by item, read off the function and its
 * allocation: one item for a value on the stack, two for one in memory, and nothing
 * that an operation, a store, a call or a shuffle does not need.
 */
module Sizes {
  import opened Wrappers
  import opened Sequences
  import opened Evm
  import opened Lowered
  import opened Semantics
  import opened Shuffler
  import opened Codegen
  import opened Faults

  // ---------------------------------------------------------------------------
  // What each construct needs
  // ---------------------------------------------------------------------------

  function OperandItems(o: Operand, stack: seq<Slot>): nat {
    match o case Literal(_) => 1 case Location(s) => if s in stack then 1 else 2
  }

  /** A slot on the stack is overwritten, a new one stays where it is, and all others go to memory. */
  function StoreItems(dest: Slot, alloc: Allocation, stack: seq<Slot>): nat {
    if OnStack(alloc, dest) && dest !in stack then 0 else 2
  }

  function ArgumentItems(args: seq<Operand>, stack: seq<Slot>): nat {
    if args == [] then 0 else ArgumentItems(args[..|args| - 1], stack) + OperandItems(args[|args| - 1], stack)
  }

  function InstructionItems(inst: Instruction, alloc: Allocation, stack: seq<Slot>): nat {
    match inst
    case BinaryOp(d, op, left, right) =>
      OperandItems(left, stack) + OperandItems(right, stack)
      + (if op.LessEqual? || op.GreaterEqual? || op.NotEqual? then 2 else 1) + StoreItems(d, alloc, stack)
    case UnaryOp(d, Negate, o) => OperandItems(o, stack) + 2 + StoreItems(d, alloc, stack)
    case UnaryOp(d, Not, o) => OperandItems(o, stack) + 1 + StoreItems(d, alloc, stack)
    case StorageLoad(d, _) => 2 + StoreItems(d, alloc, stack)
    case StorageStore(_, o) => OperandItems(o, stack) + 2
    case LoadConstant(d, _) => 1 + StoreItems(d, alloc, stack)
    case Copy(d, o) => OperandItems(o, stack) + StoreItems(d, alloc, stack)
    case Call(None, _, args) => ArgumentItems(args, stack) + 5
    case Call(Some(d), _, args) => ArgumentItems(args, stack) + 5 + StoreItems(d, alloc, stack)
  }

  /** Nothing if the target is there; else every target slot is copied, or loaded once, and the old items go. */
  function ShuffleItems(current: seq<Slot>, target: seq<Slot>): nat {
    if current == target then 0
    else if target == [] then |current|
    else |target| + |ToSet(target) - ToSet(current)| + 2 * |current|
  }

  function TerminatorItems(t: Terminator, alloc: Allocation, stack: seq<Slot>): nat {
    match t
    case Jump(target) => ShuffleItems(stack, Layout(alloc, target)) + 2
    case Branch(condition, thenBlock, elseBlock) =>
      (match condition
       case Location(s) => ShuffleItems(stack, [s] + Layout(alloc, thenBlock))
       case Literal(_) => ShuffleItems(stack, Layout(alloc, thenBlock)) + 1)
      + 2 + ShuffleItems(Layout(alloc, thenBlock), Layout(alloc, elseBlock)) + 2
    case Return(Some(Location(s))) => ShuffleItems(stack, [s]) + 2
    case Return(Some(Literal(_))) => ShuffleItems(stack, []) + 3
    case Return(None) => ShuffleItems(stack, []) + 1
    case Unreachable => ShuffleItems(stack, []) + 1
  }

  function RestItems(
      insts: seq<Instruction>, i: nat, t: Terminator, alloc: Allocation, entry: seq<Slot>): nat
    requires i <= |insts|
    decreases |insts| - i
  {
    if i == |insts| then TerminatorItems(t, alloc, StackAt(insts, i, alloc, entry) + entry)
    else
      InstructionItems(insts[i], alloc, StackAt(insts, i, alloc, entry) + entry)
      + RestItems(insts, i + 1, t, alloc, entry)
  }

  function PrologueItems(u: Unit, entry: seq<Slot>): nat {
    if u.fn.isExternal then 2 * |entry|
    else if u.fn.parameters == [] then 0
    else 1 + ShuffleItems(ArgumentOrder(u.fn.parameters), entry)
  }

  function BlockItems(u: Unit, b: BlockId): nat
    requires b in u.fn.cfg.blocks
  {
    var entry, block := Layout(u.alloc, b), u.fn.cfg.blocks[b];
    2 + (if b == u.fn.cfg.entry then PrologueItems(u, entry) else 0)
    + RestItems(block.instructions, 0, block.terminator, u.alloc, entry)
  }

  function FunctionItems(u: Unit, order: seq<BlockId>): nat {
    if order == [] then 0
    else (if order[0] in u.fn.cfg.blocks then BlockItems(u, order[0]) else 0) + FunctionItems(u, order[1..])
  }

  // ---------------------------------------------------------------------------
  // Shuffles
  // ---------------------------------------------------------------------------

  /** The slots that have to be loaded. */
  function Missing(sim: seq<Option<Slot>>, pre: seq<Slot>): set<Slot> {
    set t | t in pre && Some(t) !in sim
  }

  lemma {:induction false} LoadsSize(sim: seq<Option<Slot>>, pre: seq<Slot>, base: nat)
    requires EmitShuffle(Loads(sim, pre), base).Ok? && EmitShuffle(Loads(sim, pre), base).value.whole
    ensures |EmitShuffle(Loads(sim, pre), base).value.code| == |pre| + |Missing(sim, pre)|
    decreases |pre|
  {
    hide MemoryOffset;
    if pre != [] {
      var t, init := pre[|pre| - 1], pre[..|pre| - 1];
      LoadsCode(sim, pre, base);
      LoadsSize([Some(t)] + sim, init, base);
      OneLess(sim, init, t);
      assert pre == init + [t];
    }
  }

  /** A slot that is loaded need not be loaded again. */
  lemma OneLess(sim: seq<Option<Slot>>, init: seq<Slot>, t: Slot)
    ensures |Missing(sim, init + [t])| == |Missing([Some(t)] + sim, init)| + if Some(t) in sim then 0 else 1
  {
    var all, fewer := Missing(sim, init + [t]), Missing([Some(t)] + sim, init);
    forall x ensures Some(x) in [Some(t)] + sim <==> x == t || Some(x) in sim {
      assert ([Some(t)] + sim)[0] == Some(t);
    }
    assert forall x :: x in init + [t] <==> x in init || x == t;
    if Some(t) in sim {
      assert all == fewer;
    } else {
      assert all == fewer + {t};
    }
  }

  lemma {:induction false} PopsSize(m: nat, base: nat)
    requires EmitShuffle(Pops(m), base).Ok?
    ensures |EmitShuffle(Pops(m), base).value.code| == m
  {
    if m > 0 {
      assert Pops(m)[1..] == Pops(m - 1);
      PopsSize(m - 1, base);
    }
  }

  lemma {:induction false} DrainsSize(m: nat, n: nat, base: nat)
    requires EmitShuffle(Drains(m, n), base).Ok?
    ensures |EmitShuffle(Drains(m, n), base).value.code| == 2 * m
  {
    if m > 0 {
      SwapPopEmit(n, base);
      EmitAppend([Swap(n), Pop], Drains(m - 1, n), base);
      DrainsSize(m - 1, n, base);
    }
  }

  lemma RotatedItems(current: seq<Slot>, target: seq<Slot>, m: nat)
    ensures |Rotated(target, m)| == |target|
    ensures Missing(Present(current), Rotated(target, m)) == ToSet(target) - ToSet(current)
  {
    forall t ensures t in Rotated(target, m) <==> t in target {
      if target != [] {
        var cut := |target| - m % |target|;
        assert target == target[..cut] + target[cut..];
      }
    }
    forall t ensures Some(t) in Present(current) <==> t in current {
      if t in current {
        var i :| 0 <= i < |current| && current[i] == t;
        assert Present(current)[i] == Some(t);
      }
    }
  }

  lemma ShuffleSize(current: seq<Slot>, target: seq<Slot>, base: nat)
    requires ShuffleCode(current, target, base).Ok? && ShuffleCode(current, target, base).value.whole
    ensures |ShuffleCode(current, target, base).value.code| == ShuffleItems(current, target)
  {
    hide Loads, Drains, Pops, EmitShuffle, Rotated;
    SamePresent(current, target);
    if current == target {
      NothingSize(base);
    } else if target == [] {
      PopsSize(|current|, base);
    } else {
      var loads, drains := Loads(Present(current), Rotated(target, |current|)), Drains(|current|, |target|);
      EmitAppend(loads, drains, base);
      LoadsSize(Present(current), Rotated(target, |current|), base);
      RotatedItems(current, target, |current|);
      DrainsSize(|current|, |target|, base);
    }
  }

  lemma NothingSize(base: nat)
    ensures EmitShuffle([], base).Ok? && EmitShuffle([], base).value.code == []
  {
  }

  // ---------------------------------------------------------------------------
  // Instructions
  // ---------------------------------------------------------------------------

  lemma OperandSize(o: Operand, base: nat, entry: seq<Slot>, bs: seq<Slot>, extra: nat)
    requires OperandCode(o, base, entry, bs, extra).Ok?
    ensures |OperandCode(o, base, entry, bs, extra).value| == OperandItems(o, bs + entry)
  {
    hide MemoryOffset, Int64Word;
  }

  lemma StoreSize(dest: Slot, ctx: Context, entry: seq<Slot>, bs: seq<Slot>)
    requires StoreCode(dest, ctx, entry, bs).Ok?
    ensures |StoreCode(dest, ctx, entry, bs).value.0| == StoreItems(dest, ctx.alloc, bs + entry)
  {
    hide MemoryOffset;
  }

  lemma {:induction false} ArgumentsSize(args: seq<Operand>, base: nat, entry: seq<Slot>, bs: seq<Slot>)
    requires ArgumentsCode(args, base, entry, bs).Ok?
    ensures |ArgumentsCode(args, base, entry, bs).value| == ArgumentItems(args, bs + entry)
    decreases |args|
  {
    hide OperandCode, OperandItems;
    if args != [] {
      var n := |args| - 1;
      ArgumentsSize(args[..n], base, entry, bs);
      OperandSize(args[n], base, entry, bs, n);
    }
  }

  lemma InstructionSize(inst: Instruction, ctx: Context, entry: seq<Slot>, bs: seq<Slot>, next: Label)
    requires InstructionCode(inst, ctx, entry, bs, next).Ok?
    ensures |InstructionCode(inst, ctx, entry, bs, next).value.code| == InstructionItems(inst, ctx.alloc, bs + entry)
  {
    hide OperandCode, StoreCode, ArgumentsCode, OperandItems, StoreItems, ArgumentItems;
    var base := ctx.base;
    match inst {
      case BinaryOp(_, _, left, right) =>
        OperandSize(right, base, entry, bs, 0);
        OperandSize(left, base, entry, bs, 1);
      case UnaryOp(_, Negate, o) => OperandSize(o, base, entry, bs, 1);
      case UnaryOp(_, Not, o) => OperandSize(o, base, entry, bs, 0);
      case StorageStore(_, o) => OperandSize(o, base, entry, bs, 0);
      case Copy(_, o) => OperandSize(o, base, entry, bs, 0);
      case Call(_, _, args) => ArgumentsSize(args, base, entry, bs);
      case StorageLoad(_, _) =>
      case LoadConstant(_, _) =>
    }
    if Destination(inst).Some? {
      StoreSize(Destination(inst).value, ctx, entry, bs);
    }
  }

  // ---------------------------------------------------------------------------
  // Blocks and functions
  // ---------------------------------------------------------------------------

  lemma TerminatorSize(t: Terminator, ctx: Context, entry: seq<Slot>, bs: seq<Slot>)
    requires TerminatorCode(t, ctx, entry, bs).Ok? && TerminatorCode(t, ctx, entry, bs).value.whole
    ensures |TerminatorCode(t, ctx, entry, bs).value.code| == TerminatorItems(t, ctx.alloc, bs + entry)
  {
    hide ShuffleCode, ShuffleItems;
    var current := bs + entry;
    match t
    case Jump(target) => ShuffleSize(current, Layout(ctx.alloc, target), ctx.base);
    case Branch(condition, thenBlock, elseBlock) =>
      var thenLayout := Layout(ctx.alloc, thenBlock);
      ShuffleSize(thenLayout, Layout(ctx.alloc, elseBlock), ctx.base);
      match condition {
        case Location(s) => ShuffleSize(current, [s] + thenLayout, ctx.base);
        case Literal(_) => ShuffleSize(current, thenLayout, ctx.base);
      }
    case Return(Some(Location(s))) => ShuffleSize(current, [s], ctx.base);
    case Return(Some(Literal(_))) => ShuffleSize(current, [], ctx.base);
    case Return(None) => ShuffleSize(current, [], ctx.base);
    case Unreachable => ShuffleSize(current, [], ctx.base);
  }

  lemma {:induction false} RestSize(
      insts: seq<Instruction>, i: nat, t: Terminator, ctx: Context, entry: seq<Slot>, next: Label)
    requires i <= |insts|
    requires var r := RestCode(insts[i..], t, ctx, entry, StackAt(insts, i, ctx.alloc, entry), next);
             r.Ok? && r.value.whole
    ensures |RestCode(insts[i..], t, ctx, entry, StackAt(insts, i, ctx.alloc, entry), next).value.code|
         == RestItems(insts, i, t, ctx.alloc, entry)
    decreases |insts| - i
  {
    hide InstructionCode, InstructionItems, TerminatorCode, TerminatorItems, Pushed;
    var bs := StackAt(insts, i, ctx.alloc, entry);
    if i == |insts| {
      TerminatorSize(t, ctx, entry, bs);
    } else {
      assert insts[i..][0] == insts[i] && insts[i..][1..] == insts[i + 1..];
      InstructionSize(insts[i], ctx, entry, bs, next);
      InstructionPushes(insts[i], ctx, entry, bs, next);
      RestSize(insts, i + 1, t, ctx, entry, InstructionCode(insts[i], ctx, entry, bs, next).value.next);
    }
  }

  lemma {:induction false} LoadAllSize(slots: seq<Slot>, base: nat)
    ensures |LoadAll(slots, base)| == 2 * |slots|
  {
    hide MemoryOffset;
    if slots != [] {
      LoadAllSize(slots[1..], base);
    }
  }

  lemma PrologueSize(u: Unit, entry: seq<Slot>)
    requires Prologue(u, entry).Ok? && Prologue(u, entry).value.whole
    ensures |Prologue(u, entry).value.code| == PrologueItems(u, entry)
  {
    hide ShuffleCode, ShuffleItems, LoadAll, ArgumentOrder;
    LoadAllSize(entry, u.base);
    if !u.fn.isExternal && u.fn.parameters != [] {
      ShuffleSize(ArgumentOrder(u.fn.parameters), entry, u.base);
    }
  }

  lemma BlockSize(u: Unit, ctx: Context, b: BlockId, next: Label)
    requires b in u.fn.cfg.blocks && ctx.alloc == u.alloc
    requires BlockCode(u, ctx, b, next).Ok? && BlockCode(u, ctx, b, next).value.whole
    ensures |BlockCode(u, ctx, b, next).value.code| == BlockItems(u, b)
  {
    hide RestCode, RestItems, Prologue, PrologueItems;
    var block, entry := u.fn.cfg.blocks[b], Layout(u.alloc, b);
    assert block.instructions[0..] == block.instructions;
    RestSize(block.instructions, 0, block.terminator, ctx, entry, next);
    if b == u.fn.cfg.entry {
      PrologueSize(u, entry);
    }
  }

  lemma {:induction false} BlocksSize(u: Unit, ctx: Context, order: seq<BlockId>, next: Label)
    requires ctx.alloc == u.alloc
    requires BlocksCode(u, ctx, order, next).Ok? && BlocksCode(u, ctx, order, next).value.whole
    ensures |BlocksCode(u, ctx, order, next).value.code| == FunctionItems(u, order)
    decreases |order|
  {
    if order != [] {
      BlockThere(u, ctx, order[0], next);
      hide BlockCode, BlockItems;
      BlockSize(u, ctx, order[0], next);
      BlocksSize(u, ctx, order[1..], BlockCode(u, ctx, order[0], next).value.next);
    }
  }

  lemma BlockThere(u: Unit, ctx: Context, b: BlockId, next: Label)
    requires BlockCode(u, ctx, b, next).Ok?
    ensures b in u.fn.cfg.blocks
  {
    hide RestCode, Prologue;
  }

  /** A function whose DUPs are all emitted has exactly the code it needs. */
  lemma FunctionSize(u: Unit, calls: map<FnId, CallInfo>, first: Label)
    requires FunctionCode(u, calls, first).Ok? && FunctionCode(u, calls, first).value.whole
    ensures |FunctionCode(u, calls, first).value.code| == FunctionItems(u, u.order)
  {
    hide BlocksCode, FunctionItems;
    BlocksSize(u, ContextOf(u, calls, first), u.order, first + |u.order|);
  }
}
