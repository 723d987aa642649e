/** The lowered intermediate representation: register slots, blocks, control-flow graphs. */
module Lowered {
  import opened Wrappers
  import opened Words

  type Slot = nat
  type BlockId = nat
  type FnId = nat
  type Int64 = i: int | -0x8000_0000_0000_0000 <= i < 0x8000_0000_0000_0000

  datatype Constant = IntConst(i: Int64) | BoolConst(b: bool) | AddressConst(w: Word) | StringConst(s: string)
  datatype Operand = Location(slot: Slot) | Literal(c: Constant)

  datatype BinaryOperator =
    | Plus | Subtract | Multiply | Divide | Modulo
    | Less | LessEqual | Greater | GreaterEqual | Equal | NotEqual
    | LogicalAnd | LogicalOr
  datatype UnaryOperator = Not | Negate

  datatype CallTarget = Internal(fn: FnId) | External

  datatype Instruction =
    | BinaryOp(dest: Slot, op: BinaryOperator, left: Operand, right: Operand)
    | UnaryOp(dest: Slot, uop: UnaryOperator, operand: Operand)
    | StorageLoad(dest: Slot, key: Uint64)
    | StorageStore(key: Uint64, value: Operand)
    | Call(result: Option<Slot>, target: CallTarget, args: seq<Operand>)
    | LoadConstant(dest: Slot, c: Constant)
    | Copy(dest: Slot, source: Operand)

  datatype Terminator =
    | Jump(target: BlockId)
    | Branch(condition: Operand, thenBlock: BlockId, elseBlock: BlockId)
    | Return(value: Option<Operand>)
    | Unreachable

  datatype Block = Block(
    instructions: seq<Instruction>,
    terminator: Terminator,
    predecessors: seq<BlockId>,
    successors: seq<BlockId>)

  datatype Cfg = Cfg(blocks: map<BlockId, Block>, entry: BlockId)

  function Destination(inst: Instruction): Option<Slot> {
    match inst
    case StorageStore(_, _) => None
    case Call(result, _, _) => result
    case _ => Some(inst.dest)
  }

  function Operands(inst: Instruction): seq<Operand> {
    match inst
    case BinaryOp(_, _, left, right) => [left, right]
    case UnaryOp(_, _, operand) => [operand]
    case StorageLoad(_, _) => []
    case StorageStore(_, value) => [value]
    case Call(_, _, args) => args
    case LoadConstant(_, _) => []
    case Copy(_, source) => [source]
  }

  predicate HasSideEffects(inst: Instruction) {
    inst.StorageStore? || inst.Call?
  }

  function TerminatorOperands(t: Terminator): seq<Operand> {
    match t
    case Branch(condition, _, _) => [condition]
    case Return(Some(v)) => [v]
    case _ => []
  }

  function TerminatorTargets(t: Terminator): seq<BlockId> {
    match t
    case Jump(target) => [target]
    case Branch(_, thenBlock, elseBlock) => [thenBlock, elseBlock]
    case _ => []
  }

  /** The slots among some operands. */
  function SlotsOf(operands: seq<Operand>): set<Slot> {
    set o | o in operands && o.Location? :: o.slot
  }

  function Uses(inst: Instruction): set<Slot> {
    SlotsOf(Operands(inst))
  }

  function TerminatorUses(t: Terminator): set<Slot> {
    SlotsOf(TerminatorOperands(t))
  }

  function Defs(inst: Instruction): set<Slot> {
    match Destination(inst)
    case Some(d) => {d}
    case None => {}
  }

  /**
   * What the passes assume of a graph: edges are recorded at both ends, every edge
   * stays inside, and a terminator only jumps along an edge.
   */
  ghost predicate WellFormed(cfg: Cfg) {
    && cfg.entry in cfg.blocks
    && (forall b, s :: b in cfg.blocks && s in cfg.blocks[b].successors ==>
          s in cfg.blocks && b in cfg.blocks[s].predecessors)
    && (forall b, p :: b in cfg.blocks && p in cfg.blocks[b].predecessors ==>
          p in cfg.blocks && b in cfg.blocks[p].successors)
    && (forall b, s :: b in cfg.blocks && s in TerminatorTargets(cfg.blocks[b].terminator) ==>
          s in cfg.blocks[b].successors)
  }

  /** Well-formedness, opened so that it cannot run in circles. */
  lemma EdgesLinked(cfg: Cfg)
    requires WellFormed(cfg)
    ensures cfg.entry in cfg.blocks
    ensures forall b, s {:trigger s in cfg.blocks[b].successors} ::
              b in cfg.blocks && s in cfg.blocks[b].successors ==> s in cfg.blocks && b in cfg.blocks[s].predecessors
    ensures forall b, p {:trigger p in cfg.blocks[b].predecessors} ::
              b in cfg.blocks && p in cfg.blocks[b].predecessors ==> p in cfg.blocks && b in cfg.blocks[p].successors
    ensures forall b, s {:trigger s in TerminatorTargets(cfg.blocks[b].terminator)} ::
              b in cfg.blocks && s in TerminatorTargets(cfg.blocks[b].terminator) ==> s in cfg.blocks[b].successors
  {
    hide TerminatorTargets;
  }

  /** And closed. */
  lemma IsWellFormed(cfg: Cfg)
    requires cfg.entry in cfg.blocks
    requires forall b, s {:trigger s in cfg.blocks[b].successors} ::
               b in cfg.blocks && s in cfg.blocks[b].successors ==> s in cfg.blocks && b in cfg.blocks[s].predecessors
    requires forall b, p {:trigger p in cfg.blocks[b].predecessors} ::
               b in cfg.blocks && p in cfg.blocks[b].predecessors ==> p in cfg.blocks && b in cfg.blocks[p].successors
    requires forall b, s {:trigger s in TerminatorTargets(cfg.blocks[b].terminator)} ::
               b in cfg.blocks && s in TerminatorTargets(cfg.blocks[b].terminator) ==> s in cfg.blocks[b].successors
    ensures WellFormed(cfg)
  {
    hide TerminatorTargets;
  }
}

/** What lowered code means: a small-step semantics with a stack of function activations. */
module Semantics {
  import opened Wrappers
  import opened Words
  import opened Lowered

  type Regs = map<Slot, Word>

  /** A compiled function as its callers see it. */
  datatype Function = Function(cfg: Cfg, parameters: seq<Slot>, isExternal: bool, returnsValue: bool)
  type Program = map<FnId, Function>

  datatype Frame = Frame(fn: FnId, block: BlockId, index: nat, regs: Regs)

  /** Innermost activation first. */
  datatype Config =
    | Running(frames: seq<Frame>, storage: map<Word, Word>)
    | Returned(value: Option<Word>, storage: map<Word, Word>)
    | Trapped

  function Read(regs: Regs, s: Slot): Word {
    if s in regs then regs[s] else 0
  }

  /** Two's complement of a 64-bit integer, extended with zeros to a word. */
  function Int64Word(i: Int64): Word {
    if i < 0 then i + 0x1_0000_0000_0000_0000 else i
  }

  /** String constants have no word; code that mentions one is never generated. */
  function ConstantWord(c: Constant): Word {
    match c
    case IntConst(i) => Int64Word(i)
    case BoolConst(b) => FromBool(b)
    case AddressConst(w) => w
    case StringConst(_) => 0
  }

  function OperandValue(regs: Regs, o: Operand): Word {
    match o
    case Location(s) => Read(regs, s)
    case Literal(c) => ConstantWord(c)
  }

  function OperandValues(regs: Regs, os: seq<Operand>): (r: seq<Word>)
    ensures |r| == |os|
    ensures forall i :: 0 <= i < |os| ==> r[i] == OperandValue(regs, os[i])
  {
    seq(|os|, i requires 0 <= i < |os| => OperandValue(regs, os[i]))
  }

  function BinaryValue(op: BinaryOperator, l: Word, r: Word): Word {
    match op
    case Plus => Add(l, r)
    case Subtract => Sub(l, r)
    case Multiply => Mul(l, r)
    case Divide => Div(l, r)
    case Modulo => Mod(l, r)
    case Less => FromBool(l < r)
    case LessEqual => FromBool(l <= r)
    case Greater => FromBool(l > r)
    case GreaterEqual => FromBool(l >= r)
    case Equal => FromBool(l == r)
    case NotEqual => FromBool(l != r)
    case LogicalAnd => And(l, r)
    case LogicalOr => Or(l, r)
  }

  function UnaryValue(op: UnaryOperator, w: Word): Word {
    match op
    case Not => FromBool(w == 0)
    case Negate => Sub(0, w)
  }

  /** The registers after an instruction that is not a call. */
  function ExecuteRegs(inst: Instruction, regs: Regs, storage: map<Word, Word>): Regs {
    match inst
    case BinaryOp(d, op, l, r) => regs[d := BinaryValue(op, OperandValue(regs, l), OperandValue(regs, r))]
    case UnaryOp(d, op, o) => regs[d := UnaryValue(op, OperandValue(regs, o))]
    case StorageLoad(d, key) => regs[d := if key in storage then storage[key] else 0]
    case StorageStore(_, _) => regs
    case Call(_, _, _) => regs
    case LoadConstant(d, c) => regs[d := ConstantWord(c)]
    case Copy(d, o) => regs[d := OperandValue(regs, o)]
  }

  function ExecuteStorage(inst: Instruction, regs: Regs, storage: map<Word, Word>): map<Word, Word> {
    match inst
    case StorageStore(key, o) => storage[key := OperandValue(regs, o)]
    case _ => storage
  }

  /** The registers of a fresh activation: the parameters hold the arguments. */
  function Bind(parameters: seq<Slot>, values: seq<Word>): Regs
    requires |parameters| == |values|
  {
    if parameters == [] then map[]
    else Bind(parameters[..|parameters| - 1], values[..|values| - 1])
           [parameters[|parameters| - 1] := values[|values| - 1]]
  }

  /** The caller's activation after its call returned. */
  function Resume(caller: Frame, result: Option<Slot>, value: Option<Word>): Frame {
    caller.(
      index := caller.index + 1,
      regs := match (result, value)
              case (Some(d), Some(w)) => caller.regs[d := w]
              case _ => caller.regs)
  }

  function SourceStep(p: Program, c: Config): Config {
    if !c.Running? || c.frames == [] then Trapped
    else
      var f := c.frames[0];
      if f.fn !in p || f.block !in p[f.fn].cfg.blocks then Trapped
      else
        var block := p[f.fn].cfg.blocks[f.block];
        if f.index < |block.instructions| then
          StepInstruction(p, block.instructions[f.index], c.frames, c.storage)
        else
          StepTerminator(p, block.terminator, c.frames, c.storage)
  }

  function StepInstruction(p: Program, inst: Instruction, frames: seq<Frame>, storage: map<Word, Word>): Config
    requires frames != []
  {
    var f := frames[0];
    match inst
    case Call(_, target, args) =>
      if target.External? || target.fn !in p || |args| != |p[target.fn].parameters| then Trapped
      else
        var g := p[target.fn];
        var callee := Frame(target.fn, g.cfg.entry, 0, Bind(g.parameters, OperandValues(f.regs, args)));
        Running([callee] + frames, storage)
    case _ =>
      var f' := f.(index := f.index + 1, regs := ExecuteRegs(inst, f.regs, storage));
      Running([f'] + frames[1..], ExecuteStorage(inst, f.regs, storage))
  }

  function StepTerminator(p: Program, t: Terminator, frames: seq<Frame>, storage: map<Word, Word>): Config
    requires frames != []
  {
    var f := frames[0];
    match t
    case Jump(target) => Running([f.(block := target, index := 0)] + frames[1..], storage)
    case Branch(condition, thenBlock, elseBlock) =>
      var target := if OperandValue(f.regs, condition) != 0 then thenBlock else elseBlock;
      Running([f.(block := target, index := 0)] + frames[1..], storage)
    case Return(v) =>
      var value := match v case Some(o) => Some(OperandValue(f.regs, o)) case None => None;
      if |frames| == 1 then Returned(value, storage)
      else
        match CallAt(p, frames[1]) {
          case Some(result) => Running([Resume(frames[1], result, value)] + frames[2..], storage)
          case None => Trapped
        }
    case Unreachable => Trapped
  }

  /** The result slot of the call an activation waits in. */
  function CallAt(p: Program, f: Frame): Option<Option<Slot>> {
    if f.fn in p && f.block in p[f.fn].cfg.blocks then
      var insts := p[f.fn].cfg.blocks[f.block].instructions;
      if f.index < |insts| && insts[f.index].Call? then Some(insts[f.index].result) else None
    else None
  }

  /** n steps, stopping early at a final configuration. */
  function SourceSteps(p: Program, c: Config, n: nat): Config
    decreases n
  {
    if n == 0 || !c.Running? then c else SourceSteps(p, SourceStep(p, c), n - 1)
  }
}
