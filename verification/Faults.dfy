/**
 * When code generation fails, read off the function, its allocation and the call
 * table: a value that lies too deep for DUP or SWAP, a string, a call that cannot be
 * made, or too many parameters. A function with none of these has code.
 */
module Faults {
  import opened Wrappers
  import opened Sequences
  import opened Evm
  import opened Lowered
  import opened Semantics
  import opened Shuffler
  import opened Codegen
  import opened LabelUses

  /** The deepest item that DUP copies, and the number of items that SWAP passes over. */
  const REACH: nat := 16

  /** The result is explained by the faults: there are none, or the error is one of them. */
  ghost predicate Explains<T>(r: Result<T>, faults: set<CodegenError>) {
    match r case Ok(_) => faults == {} case Err(e) => e in faults
  }

  // ---------------------------------------------------------------------------
  // Where the faults are
  // ---------------------------------------------------------------------------

  /** The slot is on the stack, but out of reach wherever it is, `extra` items lying above. */
  ghost predicate TooDeep(s: Slot, stack: seq<Slot>, extra: nat) {
    s in stack && forall i :: 0 <= i < |stack| && stack[i] == s ==> i + extra >= REACH
  }

  ghost function LiteralFaults(c: Constant): set<CodegenError> {
    if c.StringConst? then {StringConstant} else {}
  }

  ghost function OperandFaults(o: Operand, stack: seq<Slot>, extra: nat): set<CodegenError> {
    match o
    case Literal(c) => LiteralFaults(c)
    case Location(s) => if TooDeep(s, stack, extra) then {DepthPanic} else {}
  }

  /** A result that overwrites its slot on the stack must reach it. */
  ghost function StoreFaults(dest: Slot, alloc: Allocation, stack: seq<Slot>): set<CodegenError> {
    if OnStack(alloc, dest) && TooDeep(dest, stack, 0) then {DepthPanic} else {}
  }

  /** Each argument is pushed above those before it. */
  ghost function ArgumentFaults(args: seq<Operand>, stack: seq<Slot>): set<CodegenError> {
    set k, e | 0 <= k < |args| && e in OperandFaults(args[k], stack, k) :: e
  }

  ghost function CallFaults(
      target: CallTarget, args: seq<Operand>, calls: map<FnId, CallInfo>, stack: seq<Slot>): set<CodegenError>
  {
    match target
    case External => {ExternalCall}
    case Internal(fn) =>
      if fn !in calls then {UnknownCallee}
      else (if |args| != |calls[fn].parameters| then {ArgumentCount} else {}) + ArgumentFaults(args, stack)
  }

  /** The faults of an instruction where the block's part of the stack is `stack`. */
  ghost function InstructionFaults(
      inst: Instruction, alloc: Allocation, calls: map<FnId, CallInfo>, stack: seq<Slot>): set<CodegenError>
  {
    match inst
    case BinaryOp(d, _, left, right) =>
      OperandFaults(right, stack, 0) + OperandFaults(left, stack, 1) + StoreFaults(d, alloc, stack)
    case UnaryOp(d, Negate, o) => OperandFaults(o, stack, 1) + StoreFaults(d, alloc, stack)
    case UnaryOp(d, Not, o) => OperandFaults(o, stack, 0) + StoreFaults(d, alloc, stack)
    case StorageLoad(d, _) => StoreFaults(d, alloc, stack)
    case StorageStore(_, o) => OperandFaults(o, stack, 0)
    case LoadConstant(d, c) => LiteralFaults(c) + StoreFaults(d, alloc, stack)
    case Copy(d, o) => OperandFaults(o, stack, 0) + StoreFaults(d, alloc, stack)
    case Call(None, target, args) => CallFaults(target, args, calls, stack)
    case Call(Some(d), target, args) => CallFaults(target, args, calls, stack) + StoreFaults(d, alloc, stack)
  }

  /** A shuffle drains what was there with SWAPs over the whole target. */
  ghost function ShuffleFaults(current: seq<Slot>, target: seq<Slot>): set<CodegenError> {
    if current != [] && current != target && |target| > REACH then {DepthPanic} else {}
  }

  ghost function TerminatorFaults(t: Terminator, alloc: Allocation, stack: seq<Slot>): set<CodegenError> {
    match t
    case Jump(target) => ShuffleFaults(stack, Layout(alloc, target))
    case Branch(condition, thenBlock, elseBlock) =>
      ShuffleFaults(Layout(alloc, thenBlock), Layout(alloc, elseBlock)) +
      (match condition
       case Location(s) => ShuffleFaults(stack, [s] + Layout(alloc, thenBlock))
       case Literal(c) => LiteralFaults(c) + ShuffleFaults(stack, Layout(alloc, thenBlock)))
    case Return(Some(Literal(c))) => LiteralFaults(c)
    case _ => {}
  }

  /** What an instruction adds to the block's stack: a slot assigned to the stack that is not there yet. */
  function Pushed(inst: Instruction, alloc: Allocation, entry: seq<Slot>, bs: seq<Slot>): seq<Slot> {
    match Destination(inst)
    case Some(d) => if OnStack(alloc, d) && d !in bs && d !in entry then [d] + bs else bs
    case None => bs
  }

  /** The slots that the first n instructions of a block have put on the stack, the latest on top. */
  function StackAt(insts: seq<Instruction>, n: nat, alloc: Allocation, entry: seq<Slot>): seq<Slot>
    requires n <= |insts|
  {
    if n == 0 then [] else Pushed(insts[n - 1], alloc, entry, StackAt(insts, n - 1, alloc, entry))
  }

  /** Exactly the stack slots that are written so far and were not there on entry, each once. */
  lemma {:induction false} StackHolds(insts: seq<Instruction>, n: nat, alloc: Allocation, entry: seq<Slot>)
    requires n <= |insts|
    ensures Distinct(StackAt(insts, n, alloc, entry))
    ensures forall s :: s in StackAt(insts, n, alloc, entry) <==>
              OnStack(alloc, s) && s !in entry && exists j :: 0 <= j < n && Destination(insts[j]) == Some(s)
  {
    hide OnStack, Destination;
    if n > 0 {
      StackHolds(insts, n - 1, alloc, entry);
    }
  }

  /** From instruction i on, and at the terminator. */
  ghost function RestFaults(
      insts: seq<Instruction>, i: nat, t: Terminator, alloc: Allocation, calls: map<FnId, CallInfo>, entry: seq<Slot>)
    : set<CodegenError>
    requires i <= |insts|
  {
    (set k, e | i <= k < |insts| && e in InstructionFaults(insts[k], alloc, calls,
        StackAt(insts, k, alloc, entry) + entry)
       :: e)
    + TerminatorFaults(t, alloc, StackAt(insts, |insts|, alloc, entry) + entry)
  }

  ghost function PrologueFaults(u: Unit, entry: seq<Slot>): set<CodegenError> {
    if u.fn.isExternal || u.fn.parameters == [] then {}
    else if |u.fn.parameters| > REACH then {TooManyParameters}
    else ShuffleFaults(ArgumentOrder(u.fn.parameters), entry)
  }

  ghost function BlockFaults(u: Unit, calls: map<FnId, CallInfo>, b: BlockId): set<CodegenError>
    requires b in u.fn.cfg.blocks
  {
    var entry := Layout(u.alloc, b);
    RestFaults(u.fn.cfg.blocks[b].instructions, 0, u.fn.cfg.blocks[b].terminator, u.alloc, calls, entry)
    + if b == u.fn.cfg.entry then PrologueFaults(u, entry) else {}
  }

  /** All faults of a function, whatever the order of its blocks. */
  ghost function FunctionFaults(u: Unit, calls: map<FnId, CallInfo>): set<CodegenError> {
    set b, e | b in u.order && b in u.fn.cfg.blocks && e in BlockFaults(u, calls, b) :: e
  }

  // ---------------------------------------------------------------------------
  // Instructions
  // ---------------------------------------------------------------------------

  /** The first place of a slot decides. */
  lemma DepthOf(s: Slot, stack: seq<Slot>, extra: nat)
    ensures match FirstIndex(stack, s)
            case Some(i) => TooDeep(s, stack, extra) <==> i + extra >= REACH
            case None => !TooDeep(s, stack, extra)
  {
    match FirstIndex(stack, s)
    case Some(i) =>
      forall j | 0 <= j < i ensures stack[j] != s {
        assert stack[..i][j] == stack[j];
      }
    case None =>
  }

  lemma OperandExplained(o: Operand, base: nat, entry: seq<Slot>, bs: seq<Slot>, extra: nat)
    ensures Explains(OperandCode(o, base, entry, bs, extra), OperandFaults(o, bs + entry, extra))
  {
    hide TooDeep, MemoryOffset, Int64Word;
    if o.Location? {
      FirstIndexOfAppend(bs, entry, o.slot);
      DepthOf(o.slot, bs + entry, extra);
    }
  }

  lemma StoreExplained(dest: Slot, ctx: Context, entry: seq<Slot>, bs: seq<Slot>)
    ensures Explains(StoreCode(dest, ctx, entry, bs), StoreFaults(dest, ctx.alloc, bs + entry))
  {
    hide TooDeep, MemoryOffset;
    FirstIndexOfAppend(bs, entry, dest);
    DepthOf(dest, bs + entry, 0);
  }

  lemma {:induction false} ArgumentsExplained(args: seq<Operand>, base: nat, entry: seq<Slot>, bs: seq<Slot>)
    ensures Explains(ArgumentsCode(args, base, entry, bs), ArgumentFaults(args, bs + entry))
    decreases |args|
  {
    hide OperandCode, OperandFaults;
    if args != [] {
      var n := |args| - 1;
      ArgumentsExplained(args[..n], base, entry, bs);
      OperandExplained(args[n], base, entry, bs, n);
      ArgumentFaultsNext(args, bs + entry);
    }
  }

  lemma ArgumentFaultsNext(args: seq<Operand>, stack: seq<Slot>)
    requires args != []
    ensures var n := |args| - 1;
            ArgumentFaults(args, stack) == ArgumentFaults(args[..n], stack) + OperandFaults(args[n], stack, n)
  {
    hide OperandFaults;
    var n := |args| - 1;
    forall e | e in ArgumentFaults(args[..n], stack) ensures e in ArgumentFaults(args, stack) {
      var k :| 0 <= k < n && e in OperandFaults(args[..n][k], stack, k);
      assert e in OperandFaults(args[k], stack, k);
    }
    forall e | e in ArgumentFaults(args, stack)
      ensures e in ArgumentFaults(args[..n], stack) + OperandFaults(args[n], stack, n)
    {
      var k :| 0 <= k < |args| && e in OperandFaults(args[k], stack, k);
      if k < n {
        assert e in OperandFaults(args[..n][k], stack, k);
      }
    }
  }

  lemma ValueExplained(inst: Instruction, base: nat, entry: seq<Slot>, bs: seq<Slot>)
    requires !inst.Call? && !inst.StorageStore?
    ensures var stack := bs + entry;
            var faults := match inst {
              case BinaryOp(_, _, left, right) => OperandFaults(right, stack, 0) + OperandFaults(left, stack, 1)
              case UnaryOp(_, Negate, o) => OperandFaults(o, stack, 1)
              case UnaryOp(_, Not, o) => OperandFaults(o, stack, 0)
              case LoadConstant(_, c) => LiteralFaults(c)
              case Copy(_, o) => OperandFaults(o, stack, 0)
              case StorageLoad(_, _) => {}
            };
            Explains(ValueCode(inst, base, entry, bs), faults)
  {
    hide OperandCode, OperandFaults;
    match inst
    case BinaryOp(_, _, left, right) =>
      OperandExplained(right, base, entry, bs, 0);
      OperandExplained(left, base, entry, bs, 1);
    case UnaryOp(_, Negate, o) => OperandExplained(o, base, entry, bs, 1);
    case UnaryOp(_, Not, o) => OperandExplained(o, base, entry, bs, 0);
    case Copy(_, o) => OperandExplained(o, base, entry, bs, 0);
    case LoadConstant(_, _) =>
    case StorageLoad(_, _) =>
  }

  lemma CallExplained(
      result: Option<Slot>, target: CallTarget, args: seq<Operand>, ctx: Context, entry: seq<Slot>, bs: seq<Slot>,
      next: Label)
    ensures Explains(CallCode(result, target, args, ctx, entry, bs, next),
                     InstructionFaults(Call(result, target, args), ctx.alloc, ctx.calls, bs + entry))
  {
    hide ArgumentsCode, StoreCode, ArgumentFaults, StoreFaults;
    ArgumentsExplained(args, ctx.base, entry, bs);
    if result.Some? {
      StoreExplained(result.value, ctx, entry, bs);
    }
  }

  lemma InstructionExplained(inst: Instruction, ctx: Context, entry: seq<Slot>, bs: seq<Slot>, next: Label)
    ensures Explains(InstructionCode(inst, ctx, entry, bs, next),
                     InstructionFaults(inst, ctx.alloc, ctx.calls, bs + entry))
  {
    hide ValueCode, StoreCode, CallCode, OperandCode, OperandFaults, StoreFaults, CallFaults;
    match inst
    case Call(result, target, args) => CallExplained(result, target, args, ctx, entry, bs, next);
    case StorageStore(_, o) => OperandExplained(o, ctx.base, entry, bs, 0);
    case _ =>
      ValueExplained(inst, ctx.base, entry, bs);
      StoreExplained(inst.dest, ctx, entry, bs);
  }

  /** A result that has code changes the block's stack as described. */
  lemma InstructionPushes(inst: Instruction, ctx: Context, entry: seq<Slot>, bs: seq<Slot>, next: Label)
    requires InstructionCode(inst, ctx, entry, bs, next).Ok?
    ensures InstructionCode(inst, ctx, entry, bs, next).value.blockStack == Pushed(inst, ctx.alloc, entry, bs)
  {
    hide ValueCode, OperandCode, ArgumentsCode, MemoryOffset;
  }

  // ---------------------------------------------------------------------------
  // Terminators and blocks
  // ---------------------------------------------------------------------------

  lemma ShuffleExplained(current: seq<Slot>, target: seq<Slot>, base: nat)
    ensures Explains(ShuffleCode(current, target, base), ShuffleFaults(current, target))
  {
    hide Loads, Drains, Pops, EmitShuffle, Rotated;
    SamePresent(current, target);
    if current == target {
      NothingEmitted(base);
    } else if target == [] {
      PopsEmitted(|current|, base);
    } else {
      LoadsEmit(Present(current), Rotated(target, |current|), base);
      DrainsEmitted(|current|, |target|, base);
      EmitAppend(Loads(Present(current), Rotated(target, |current|)), Drains(|current|, |target|), base);
      OnlyDepth(Plan(Present(current), target), base);
    }
  }

  lemma SamePresent(current: seq<Slot>, target: seq<Slot>)
    ensures AlreadyThere(Present(current), target) <==> current == target
  {
  }

  lemma NothingEmitted(base: nat)
    ensures EmitShuffle([], base).Ok?
  {
  }

  lemma {:induction false} PopsEmitted(m: nat, base: nat)
    ensures EmitShuffle(Pops(m), base).Ok?
  {
    if m > 0 {
      PopsEmitted(m - 1, base);
      assert Pops(m)[1..] == Pops(m - 1);
    }
  }

  lemma {:induction false} DrainsEmitted(m: nat, n: nat, base: nat)
    requires n > 0
    ensures EmitShuffle(Drains(m, n), base).Ok? <==> m == 0 || n <= REACH
  {
    if m > 0 {
      DrainsEmitted(m - 1, n, base);
      SwapPopEmit(n, base);
      EmitAppend([Swap(n), Pop], Drains(m - 1, n), base);
    }
  }

  lemma {:induction false} OnlyDepth(ops: seq<ShuffleOp>, base: nat)
    ensures EmitShuffle(ops, base).Err? ==> EmitShuffle(ops, base).error == DepthPanic
  {
    hide MemoryOffset;
    if ops != [] {
      OnlyDepth(ops[1..], base);
    }
  }

  lemma TerminatorExplained(t: Terminator, ctx: Context, entry: seq<Slot>, bs: seq<Slot>)
    requires forall c :: c in TerminatorTargets(t) ==> c in ctx.labels
    ensures Explains(TerminatorCode(t, ctx, entry, bs), TerminatorFaults(t, ctx.alloc, bs + entry))
  {
    hide ShuffleCode, ShuffleFaults;
    var current := bs + entry;
    match t
    case Jump(target) =>
      assert target in TerminatorTargets(t);
      ShuffleExplained(current, Layout(ctx.alloc, target), ctx.base);
    case Branch(condition, thenBlock, elseBlock) =>
      assert thenBlock in TerminatorTargets(t) && elseBlock in TerminatorTargets(t);
      var thenLayout := Layout(ctx.alloc, thenBlock);
      ShuffleExplained(thenLayout, Layout(ctx.alloc, elseBlock), ctx.base);
      ConditionExplained(condition, current, thenLayout, ctx.base);
    case Return(Some(Location(s))) =>
      ShuffleExplained(current, [s], ctx.base);
      FewFit(current, [s]);
    case Return(Some(Literal(c))) =>
      ShuffleExplained(current, [], ctx.base);
      FewFit(current, []);
    case Return(None) =>
      ShuffleExplained(current, [], ctx.base);
      FewFit(current, []);
    case Unreachable =>
      ShuffleExplained(current, [], ctx.base);
      FewFit(current, []);
  }

  lemma FewFit(current: seq<Slot>, target: seq<Slot>)
    requires |target| <= REACH
    ensures ShuffleFaults(current, target) == {}
  {
  }

  lemma ConditionExplained(condition: Operand, current: seq<Slot>, thenLayout: seq<Slot>, base: nat)
    ensures Explains(ConditionCode(condition, current, thenLayout, base),
                     match condition {
                       case Location(s) => ShuffleFaults(current, [s] + thenLayout)
                       case Literal(c) => LiteralFaults(c) + ShuffleFaults(current, thenLayout)
                     })
  {
    hide ShuffleCode, ShuffleFaults, Int64Word;
    match condition
    case Location(s) => ShuffleExplained(current, [s] + thenLayout, base);
    case Literal(c) => ShuffleExplained(current, thenLayout, base);
  }

  /** The rest of a block, from any of its instructions on. */
  lemma {:induction false} RestExplained(
      insts: seq<Instruction>, i: nat, t: Terminator, ctx: Context, entry: seq<Slot>, next: Label)
    requires i <= |insts| && forall c :: c in TerminatorTargets(t) ==> c in ctx.labels
    ensures Explains(RestCode(insts[i..], t, ctx, entry, StackAt(insts, i, ctx.alloc, entry), next),
                     RestFaults(insts, i, t, ctx.alloc, ctx.calls, entry))
    decreases |insts| - i
  {
    hide InstructionCode, InstructionFaults, TerminatorCode, TerminatorFaults, Pushed;
    var bs := StackAt(insts, i, ctx.alloc, entry);
    if i == |insts| {
      TerminatorExplained(t, ctx, entry, bs);
    } else {
      assert insts[i..][0] == insts[i] && insts[i..][1..] == insts[i + 1..];
      InstructionExplained(insts[i], ctx, entry, bs, next);
      RestFaultsNext(insts, i, t, ctx.alloc, ctx.calls, entry);
      var head := InstructionCode(insts[i], ctx, entry, bs, next);
      if head.Ok? {
        InstructionPushes(insts[i], ctx, entry, bs, next);
        RestExplained(insts, i + 1, t, ctx, entry, head.value.next);
      }
    }
  }

  lemma RestFaultsNext(
      insts: seq<Instruction>, i: nat, t: Terminator, alloc: Allocation, calls: map<FnId, CallInfo>, entry: seq<Slot>)
    requires i < |insts|
    ensures RestFaults(insts, i, t, alloc, calls, entry) ==
            InstructionFaults(insts[i], alloc, calls, StackAt(insts, i, alloc, entry) + entry)
            + RestFaults(insts, i + 1, t, alloc, calls, entry)
  {
    hide InstructionFaults, TerminatorFaults, StackAt;
  }

  lemma PrologueExplained(u: Unit, entry: seq<Slot>)
    ensures Explains(Prologue(u, entry), PrologueFaults(u, entry))
  {
    hide ShuffleCode, ShuffleFaults, LoadAll, ArgumentOrder;
    if !u.fn.isExternal && u.fn.parameters != [] {
      ShuffleExplained(ArgumentOrder(u.fn.parameters), entry, u.base);
    }
  }

  lemma BlockExplained(u: Unit, ctx: Context, b: BlockId, next: Label)
    requires b in u.fn.cfg.blocks && b in ctx.labels && ctx.alloc == u.alloc
    requires forall c :: c in TerminatorTargets(u.fn.cfg.blocks[b].terminator) ==> c in ctx.labels
    ensures Explains(BlockCode(u, ctx, b, next), BlockFaults(u, ctx.calls, b))
  {
    hide RestCode, RestFaults, Prologue, PrologueFaults;
    var block, entry := u.fn.cfg.blocks[b], Layout(u.alloc, b);
    assert block.instructions[0..] == block.instructions;
    RestExplained(block.instructions, 0, block.terminator, ctx, entry, next);
    PrologueExplained(u, entry);
  }

  // ---------------------------------------------------------------------------
  // Functions
  // ---------------------------------------------------------------------------

  ghost function FaultsAmong(u: Unit, calls: map<FnId, CallInfo>, order: seq<BlockId>): set<CodegenError> {
    set b, e | b in order && b in u.fn.cfg.blocks && e in BlockFaults(u, calls, b) :: e
  }

  lemma {:induction false} BlocksExplained(u: Unit, ctx: Context, order: seq<BlockId>, next: Label)
    requires ctx.alloc == u.alloc
    requires forall b :: b in order ==> b in u.fn.cfg.blocks && b in ctx.labels
    requires forall b, c :: b in order && c in TerminatorTargets(u.fn.cfg.blocks[b].terminator) ==> c in ctx.labels
    ensures Explains(BlocksCode(u, ctx, order, next), FaultsAmong(u, ctx.calls, order))
    decreases |order|
  {
    hide BlockCode, BlockFaults, TerminatorTargets;
    if order != [] {
      assert order == [order[0]] + order[1..];
      var head := BlockCode(u, ctx, order[0], next);
      BlockExplained(u, ctx, order[0], next);
      if head.Ok? {
        BlocksExplained(u, ctx, order[1..], head.value.next);
      }
    }
  }

  /**
   * A function has code if and only if it has no fault, and otherwise the error is a
   * fault of it.
   */
  lemma FunctionExplained(u: Unit, calls: map<FnId, CallInfo>, first: Label)
    requires OrderClosed(u)
    ensures Explains(FunctionCode(u, calls, first), FunctionFaults(u, calls))
  {
    hide BlocksCode, BlockFaults, TerminatorTargets;
    BlocksExplained(u, ContextOf(u, calls, first), u.order, first + |u.order|);
  }

  /**
   * With layouts of at most fifteen slots every shuffle is within reach: terminators
   * fail only for strings, and prologues only for the number of parameters.
   */
  lemma ShortLayoutsFit(u: Unit, b: BlockId, stack: seq<Slot>)
    requires OrderClosed(u) && b in u.order && forall c :: c in u.order ==> |Layout(u.alloc, c)| < REACH
    ensures b in u.fn.cfg.blocks
    ensures TerminatorFaults(u.fn.cfg.blocks[b].terminator, u.alloc, stack) <= {StringConstant}
    ensures PrologueFaults(u, Layout(u.alloc, b)) <= {TooManyParameters}
  {
    hide Layout;
    var t := u.fn.cfg.blocks[b].terminator;
    if t.Jump? {
      assert t.target in TerminatorTargets(t);
    } else if t.Branch? {
      assert t.thenBlock in TerminatorTargets(t) && t.elseBlock in TerminatorTargets(t);
    }
  }
}
