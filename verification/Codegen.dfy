/**
 * The code generator as functions: what each source construct is compiled to
 * (the files of codegen/src/codegen, and generate_function in codegen/src/lib.rs).
 * Generator.dfy emits exactly this code into a bytecode builder.
 */
module Codegen {
  import opened Wrappers
  import opened Sequences
  import opened Words
  import opened Evm
  import opened Lowered
  import opened Semantics
  import opened Shuffler

  datatype SlotLocation = StackPos(n: nat) | Memory

  /** The register allocation of one function. */
  datatype Allocation = Allocation(assignment: map<Slot, SlotLocation>, entryLayout: map<BlockId, seq<Slot>>)

  predicate OnStack(alloc: Allocation, s: Slot) {
    s in alloc.assignment && alloc.assignment[s].StackPos?
  }

  function Layout(alloc: Allocation, b: BlockId): seq<Slot> {
    if b in alloc.entryLayout then alloc.entryLayout[b] else []
  }

  /** What a call site needs to know of a callee. */
  datatype CallInfo = CallInfo(entryLabel: Label, parameters: seq<Slot>)

  datatype Context = Context(
    base: nat,
    alloc: Allocation,
    calls: map<FnId, CallInfo>,
    labels: map<BlockId, Label>)

  /**
   * A piece of generated code, the slots its block has put on the stack (top
   * first), the next unused label, and whether no DUP was dropped.
   */
  datatype Piece = Piece(code: seq<Asm>, blockStack: seq<Slot>, next: Label, whole: bool)

  // ---------------------------------------------------------------------------
  // Operands and results
  // ---------------------------------------------------------------------------

  function ConstantCode(c: Constant): Result<seq<Asm>> {
    match c
    case IntConst(i) => Ok([PushWord(Int64Word(i))])
    case BoolConst(b) => Ok([PushWord(FromBool(b))])
    case AddressConst(w) => Ok([PushWord(w)])
    case StringConst(_) => Err(StringConstant)
  }

  /**
   * The word of a literal: an integer in two's complement of 64 bits with zeros in
   * front, 1 or 0 for a boolean, and an address itself.
   */
  ghost predicate Denotes(c: Constant, w: Word) {
    match c
    case IntConst(i) => w < 0x1_0000_0000_0000_0000 && (w - i) % 0x1_0000_0000_0000_0000 == 0
    case BoolConst(b) => w == if b then 1 else 0
    case AddressConst(a) => w == a
    case StringConst(_) => false
  }

  /** What is pushed for a literal, and what it means, is its word. */
  lemma LiteralIs(c: Constant)
    ensures ConstantCode(c).Ok? <==> !c.StringConst?
    ensures !c.StringConst? ==> ConstantCode(c) == Ok([PushWord(ConstantWord(c))]) && Denotes(c, ConstantWord(c))
    ensures forall w: Word :: Denotes(c, w) ==> w == ConstantWord(c)
  {
    if c.IntConst? {
      forall w: Word | Denotes(c, w) ensures w == ConstantWord(c) {
        OneMultiple(w - c.i, ConstantWord(c) - c.i);
      }
    }
  }

  /** Numbers that differ by less than the modulus and are both multiples of it are equal. */
  lemma OneMultiple(a: int, b: int)
    requires a % 0x1_0000_0000_0000_0000 == 0 && b % 0x1_0000_0000_0000_0000 == 0
    requires -0x1_0000_0000_0000_0000 < a - b < 0x1_0000_0000_0000_0000
    ensures a == b
  {
  }

  function DupCode(pos: nat): Result<seq<Asm>> {
    match DupForPosition(pos)
    case Some(op) => Ok([Do(op)])
    case None => Err(DepthPanic)
  }

  function SwapPopCode(pos: nat): Result<seq<Asm>> {
    match SwapForPosition(pos)
    case Some(op) => Ok([Do(op), Do(POP)])
    case None => Err(DepthPanic)
  }

  /** Push an operand; `extra` items lie above the block stack. */
  function OperandCode(o: Operand, base: nat, entry: seq<Slot>, bs: seq<Slot>, extra: nat): Result<seq<Asm>> {
    match o
    case Literal(c) => ConstantCode(c)
    case Location(s) =>
      match FirstIndex(bs, s)
      case Some(i) => DupCode(i + 1 + extra)
      case None =>
        match FirstIndex(entry, s)
        case Some(i) => DupCode(|bs| + i + 1 + extra)
        case None => Ok([PushWord(MemoryOffset(base, s)), Do(MLOAD)])
  }

  /** Store the top of the stack to `dest`; the result is the code and the new block stack. */
  function StoreCode(dest: Slot, ctx: Context, entry: seq<Slot>, bs: seq<Slot>): Result<(seq<Asm>, seq<Slot>)> {
    if OnStack(ctx.alloc, dest) then
      match FirstIndex(bs, dest)
      case Some(d) => var code :- SwapPopCode(d + 1); Ok((code, bs))
      case None =>
        match FirstIndex(entry, dest)
        case Some(e) => var code :- SwapPopCode(|bs| + e + 1); Ok((code, bs))
        case None => Ok(([], [dest] + bs))
    else
      Ok(([PushWord(MemoryOffset(ctx.base, dest)), Do(MSTORE)], bs))
  }

  // ---------------------------------------------------------------------------
  // Instructions
  // ---------------------------------------------------------------------------

  function BinaryCode(op: BinaryOperator): seq<Asm> {
    match op
    case Plus => [Do(ADD)]
    case Subtract => [Do(SUB)]
    case Multiply => [Do(MUL)]
    case Divide => [Do(DIV)]
    case Modulo => [Do(MOD)]
    case Less => [Do(LT)]
    case LessEqual => [Do(GT), Do(ISZERO)]
    case Greater => [Do(GT)]
    case GreaterEqual => [Do(LT), Do(ISZERO)]
    case Equal => [Do(EQ)]
    case NotEqual => [Do(EQ), Do(ISZERO)]
    case LogicalAnd => [Do(AND)]
    case LogicalOr => [Do(OR)]
  }

  /** The code that leaves an instruction's value on top of the stack. */
  function ValueCode(inst: Instruction, base: nat, entry: seq<Slot>, bs: seq<Slot>): Result<seq<Asm>>
    requires !inst.Call? && !inst.StorageStore?
  {
    match inst
    case BinaryOp(_, op, left, right) =>
      var r :- OperandCode(right, base, entry, bs, 0);
      var l :- OperandCode(left, base, entry, bs, 1);
      Ok(r + l + BinaryCode(op))
    case UnaryOp(_, Negate, o) =>
      var code :- OperandCode(o, base, entry, bs, 1);
      Ok([PushWord(0)] + code + [Do(SUB)])
    case UnaryOp(_, Not, o) =>
      var code :- OperandCode(o, base, entry, bs, 0);
      Ok(code + [Do(ISZERO)])
    case LoadConstant(_, c) => ConstantCode(c)
    case Copy(_, o) => OperandCode(o, base, entry, bs, 0)
    case StorageLoad(_, key) => Ok([PushWord(key), Do(SLOAD)])
  }

  /** Push the arguments left to right. */
  function ArgumentsCode(args: seq<Operand>, base: nat, entry: seq<Slot>, bs: seq<Slot>): Result<seq<Asm>> {
    if args == [] then Ok([])
    else
      var n := |args| - 1;
      var init :- ArgumentsCode(args[..n], base, entry, bs);
      var last :- OperandCode(args[n], base, entry, bs, n);
      Ok(init + last)
  }

  function StoreResult(
      result: Option<Slot>, ctx: Context, entry: seq<Slot>, bs: seq<Slot>): Result<(seq<Asm>, seq<Slot>)>
  {
    match result
    case Some(d) => StoreCode(d, ctx, entry, bs)
    case None => Ok(([], bs))
  }

  /** The jump of a call: push the continuation, jump to the callee, and the continuation itself. */
  function CallJump(continuation: Label, callee: Label): seq<Asm> {
    [PushLabel(continuation), PushLabel(callee), Do(JUMP), Mark(continuation), Do(JUMPDEST)]
  }

  function CallCode(
      result: Option<Slot>, target: CallTarget, args: seq<Operand>,
      ctx: Context, entry: seq<Slot>, bs: seq<Slot>, next: Label): Result<Piece>
  {
    match target
    case External => Err(ExternalCall)
    case Internal(fn) =>
      if fn !in ctx.calls then Err(UnknownCallee)
      else if |args| != |ctx.calls[fn].parameters| then Err(ArgumentCount)
      else
        var pushes :- ArgumentsCode(args, ctx.base, entry, bs);
        var store :- StoreResult(result, ctx, entry, bs);
        Ok(Piece(pushes + CallJump(next, ctx.calls[fn].entryLabel) + store.0, store.1, next + 1, true))
  }

  function InstructionCode(
      inst: Instruction, ctx: Context, entry: seq<Slot>, bs: seq<Slot>, next: Label): Result<Piece>
  {
    match inst
    case Call(result, target, args) => CallCode(result, target, args, ctx, entry, bs, next)
    case StorageStore(key, o) =>
      var code :- OperandCode(o, ctx.base, entry, bs, 0);
      Ok(Piece(code + [PushWord(key), Do(SSTORE)], bs, next, true))
    case _ =>
      var code :- ValueCode(inst, ctx.base, entry, bs);
      var store :- StoreCode(inst.dest, ctx, entry, bs);
      Ok(Piece(code + store.0, store.1, next, true))
  }

  // ---------------------------------------------------------------------------
  // Terminators
  // ---------------------------------------------------------------------------

  function Present(slots: seq<Slot>): (r: seq<Option<Slot>>)
    ensures |r| == |slots|
    ensures forall i :: 0 <= i < |slots| ==> r[i] == Some(slots[i])
  {
    seq(|slots|, i requires 0 <= i < |slots| => Some(slots[i]))
  }

  function ShuffleCode(current: seq<Slot>, target: seq<Slot>, base: nat): Result<Emitted> {
    EmitShuffle(Plan(Present(current), target), base)
  }

  function JumpCode(l: Label): seq<Asm> {
    [PushLabel(l), Do(JUMP)]
  }

  function BranchCode(l: Label): seq<Asm> {
    [PushLabel(l), Do(JUMPI)]
  }

  function LabelOf(ctx: Context, b: BlockId): Result<Label> {
    if b in ctx.labels then Ok(ctx.labels[b]) else Err(MissingLabel)
  }

  function TerminatorCode(t: Terminator, ctx: Context, entry: seq<Slot>, bs: seq<Slot>): Result<Emitted> {
    var current := bs + entry;
    match t
    case Jump(target) =>
      var l :- LabelOf(ctx, target);
      var e :- ShuffleCode(current, Layout(ctx.alloc, target), ctx.base);
      Ok(Emitted(e.code + JumpCode(l), e.whole))
    case Branch(condition, thenBlock, elseBlock) =>
      var thenLabel :- LabelOf(ctx, thenBlock);
      var elseLabel :- LabelOf(ctx, elseBlock);
      var thenLayout := Layout(ctx.alloc, thenBlock);
      var test :- ConditionCode(condition, current, thenLayout, ctx.base);
      var e :- ShuffleCode(thenLayout, Layout(ctx.alloc, elseBlock), ctx.base);
      Ok(Emitted(test.code + BranchCode(thenLabel) + (e.code + JumpCode(elseLabel)), test.whole && e.whole))
    case Return(Some(Location(s))) =>
      var e :- ShuffleCode(current, [s], ctx.base);
      Ok(Emitted(e.code + [Do(SWAP(1)), Do(JUMP)], e.whole))
    case Return(Some(Literal(c))) =>
      var e :- ShuffleCode(current, [], ctx.base);
      var push :- ConstantCode(c);
      Ok(Emitted(e.code + push + [Do(SWAP(1)), Do(JUMP)], e.whole))
    case Return(None) =>
      var e :- ShuffleCode(current, [], ctx.base);
      Ok(Emitted(e.code + [Do(JUMP)], e.whole))
    case Unreachable =>
      var e :- ShuffleCode(current, [], ctx.base);
      Ok(Emitted(e.code + [Do(INVALID)], e.whole))
  }

  /** Shuffle to the then-layout with the condition on top. */
  function ConditionCode(condition: Operand, current: seq<Slot>, thenLayout: seq<Slot>, base: nat): Result<Emitted> {
    match condition
    case Location(s) => ShuffleCode(current, [s] + thenLayout, base)
    case Literal(c) =>
      var e :- ShuffleCode(current, thenLayout, base);
      var push :- ConstantCode(c);
      Ok(Emitted(e.code + push, e.whole))
  }

  // ---------------------------------------------------------------------------
  // Blocks and functions
  // ---------------------------------------------------------------------------

  /** The code of the rest of a block: some instructions and the terminator. */
  function RestCode(
      insts: seq<Instruction>, t: Terminator, ctx: Context, entry: seq<Slot>, bs: seq<Slot>, next: Label): Result<Piece>
    decreases |insts|
  {
    if insts == [] then
      var e :- TerminatorCode(t, ctx, entry, bs);
      Ok(Piece(e.code, bs, next, e.whole))
    else
      var head :- InstructionCode(insts[0], ctx, entry, bs, next);
      var tail :- RestCode(insts[1..], t, ctx, entry, head.blockStack, head.next);
      Ok(Piece(head.code + tail.code, tail.blockStack, tail.next, head.whole && tail.whole))
  }

  /** What one function is compiled from. */
  datatype Unit = Unit(fn: Function, base: nat, order: seq<BlockId>, alloc: Allocation)

  /** MLOADs that put the slots on the stack, the first one on top. */
  function LoadAll(slots: seq<Slot>, base: nat): seq<Asm> {
    if slots == [] then []
    else LoadAll(slots[1..], base) + [PushWord(MemoryOffset(base, slots[0])), Do(MLOAD)]
  }

  /** The parameters as the entry finds them once the continuation is sunk: first, last, ..., second. */
  function ArgumentOrder(parameters: seq<Slot>): (r: seq<Slot>)
    requires parameters != []
    ensures |r| == |parameters|
  {
    [parameters[0]] + Reversed(parameters[1..])
  }

  function Prologue(u: Unit, entry: seq<Slot>): Result<Emitted> {
    if u.fn.isExternal then Ok(Emitted(LoadAll(entry, u.base), true))
    else if u.fn.parameters == [] then Ok(Emitted([], true))
    else
      match SwapForPosition(|u.fn.parameters|)
      case None => Err(TooManyParameters)
      case Some(swap) =>
        var e :- ShuffleCode(ArgumentOrder(u.fn.parameters), entry, u.base);
        Ok(Emitted([Do(swap)] + e.code, e.whole))
  }

  function BlockLabels(order: seq<BlockId>, next: Label): (r: map<BlockId, Label>)
    ensures forall b :: b in r <==> b in order
    ensures forall b :: b in r ==> next <= r[b] < next + |order|
  {
    if order == [] then map[]
    else
      assert order == order[..|order| - 1] + [order[|order| - 1]];
      BlockLabels(order[..|order| - 1], next)[order[|order| - 1] := next + |order| - 1]
  }

  function ContextOf(u: Unit, calls: map<FnId, CallInfo>, first: Label): Context {
    Context(u.base, u.alloc, calls, BlockLabels(u.order, first))
  }

  function BlockCode(u: Unit, ctx: Context, b: BlockId, next: Label): Result<Piece> {
    if b !in u.fn.cfg.blocks then Err(MissingBlock)
    else
      var l :- LabelOf(ctx, b);
      var entry := Layout(ctx.alloc, b);
      var head :- if b == u.fn.cfg.entry then Prologue(u, entry) else Ok(Emitted([], true));
      var body :- RestCode(u.fn.cfg.blocks[b].instructions, u.fn.cfg.blocks[b].terminator, ctx, entry, [], next);
      Ok(Piece([Mark(l), Do(JUMPDEST)] + head.code + body.code, [], body.next, head.whole && body.whole))
  }

  function BlocksCode(u: Unit, ctx: Context, order: seq<BlockId>, next: Label): Result<Piece>
    decreases |order|
  {
    if order == [] then Ok(Piece([], [], next, true))
    else
      var head :- BlockCode(u, ctx, order[0], next);
      var tail :- BlocksCode(u, ctx, order[1..], head.next);
      Ok(Piece(head.code + tail.code, [], tail.next, head.whole && tail.whole))
  }

  /** A function body; its block labels are the first ones from `first` on. */
  function FunctionCode(u: Unit, calls: map<FnId, CallInfo>, first: Label): Result<Piece> {
    BlocksCode(u, ContextOf(u, calls, first), u.order, first + |u.order|)
  }
}
