/**
 * The SSA intermediate representation (ir/src/ssa_ir.rs). A block's phi nodes are kept
 * as a list in front of its other instructions, which is where placement puts them.
 */
module Ssa {
  import opened Wrappers
  import Lowered
  import opened Graphs

  type BlockId = Node
  type Symbol = nat
  type Constant = Lowered.Constant
  type BinaryOperator = Lowered.BinaryOperator
  type UnaryOperator = Lowered.UnaryOperator

  datatype Register = Register(symbol: Symbol, version: nat)
  datatype Operand = Location(reg: Register) | Literal(c: Constant)

  /** A phi node: which register to take when control comes from which block. */
  datatype Phi = Phi(dest: Register, sources: seq<(BlockId, Register)>)

  datatype Target = Internal(fn: nat) | External(member: nat)

  datatype Instruction =
    | Copy(dest: Register, source: Operand)
    | BinaryOp(dest: Register, op: BinaryOperator, left: Operand, right: Operand)
    | UnaryOp(dest: Register, uop: UnaryOperator, operand: Operand)
    | StorageLoad(dest: Register, storageVar: Symbol)
    | StorageStore(storageVar: Symbol, value: Operand)
    | Call(result: Option<Register>, target: Target, args: seq<Operand>)
    | Fold(storageVar: Symbol)
    | Unfold(storageVar: Symbol)
    | Assert(condition: Operand)

  datatype Terminator =
    | Jump(target: BlockId)
    | Branch(condition: Operand, thenBlock: BlockId, elseBlock: BlockId)
    | Return(value: Option<Operand>)
    | Unreachable

  datatype Block = Block(
    phis: seq<Phi>,
    body: seq<Instruction>,
    term: Terminator,
    predecessors: seq<BlockId>,
    successors: seq<BlockId>)

  type Blocks = map<BlockId, Block>

  function DestRegister(inst: Instruction): Option<Register> {
    match inst
    case Copy(dest, _) => Some(dest)
    case BinaryOp(dest, _, _, _) => Some(dest)
    case UnaryOp(dest, _, _) => Some(dest)
    case StorageLoad(dest, _) => Some(dest)
    case Call(result, _, _) => result
    case _ => None
  }

  function Operands(inst: Instruction): seq<Operand> {
    match inst
    case Copy(_, source) => [source]
    case BinaryOp(_, _, left, right) => [left, right]
    case UnaryOp(_, _, operand) => [operand]
    case StorageStore(_, value) => [value]
    case Call(_, _, args) => args
    case Assert(condition) => [condition]
    case _ => []
  }

  function Targets(t: Terminator): seq<BlockId> {
    match t
    case Jump(target) => [target]
    case Branch(_, thenBlock, elseBlock) => [thenBlock, elseBlock]
    case _ => []
  }

  function FlowGraph(blocks: Blocks, entry: BlockId): Graph {
    Graph(map b | b in blocks :: blocks[b].successors, map b | b in blocks :: blocks[b].predecessors, entry)
  }

  /** Terminators only jump along edges. */
  ghost predicate JumpsAlongEdges(blocks: Blocks) {
    forall b, s :: b in blocks && s in Targets(blocks[b].term) ==> s in blocks[b].successors
  }

  /** The only register of a symbol before renaming, and that of a parameter after it. */
  function First(x: Symbol): Register {
    Register(x, 0)
  }

  function PhiSymbols(phis: seq<Phi>): seq<Symbol> {
    seq(|phis|, i requires 0 <= i < |phis| => phis[i].dest.symbol)
  }

  /** The symbols some instructions assign. */
  function Assigned(insts: seq<Instruction>): set<Symbol> {
    set i | 0 <= i < |insts| && DestRegister(insts[i]).Some? :: DestRegister(insts[i]).value.symbol
  }
}
