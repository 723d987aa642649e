/** What SSA code means: block by block, with phi nodes assigned simultaneously on entry. */
module SsaSemantics {
  import opened Wrappers
  import opened Words
  import Semantics
  import opened Ssa

  type Regs = map<Register, Word>
  type Storage = map<Symbol, Word>

  /** What a call returns and does to storage, as a function of what it is given. */
  type Oracle = (Target, seq<Word>, Storage) -> (Word, Storage)

  function Read(regs: Regs, r: Register): Word {
    if r in regs then regs[r] else 0
  }

  function Value(regs: Regs, o: Operand): Word {
    match o
    case Location(r) => Read(regs, r)
    case Literal(c) => Semantics.ConstantWord(c)
  }

  function Values(regs: Regs, os: seq<Operand>): (r: seq<Word>)
    ensures |r| == |os| && forall i :: 0 <= i < |os| ==> r[i] == Value(regs, os[i])
  {
    seq(|os|, i requires 0 <= i < |os| => Value(regs, os[i]))
  }

  /** The result and the new storage, from the values of the operands. */
  function Compute(inst: Instruction, values: seq<Word>, storage: Storage, call: Oracle): (Word, Storage)
    requires |values| == |Operands(inst)|
  {
    match inst
    case Copy(_, _) => (values[0], storage)
    case BinaryOp(_, op, _, _) => (Semantics.BinaryValue(op, values[0], values[1]), storage)
    case UnaryOp(_, uop, _) => (Semantics.UnaryValue(uop, values[0]), storage)
    case StorageLoad(_, x) => (if x in storage then storage[x] else 0, storage)
    case StorageStore(x, _) => (0, storage[x := values[0]])
    case Call(_, target, _) => call(target, values, storage)
    case _ => (0, storage)
  }

  function Assign(regs: Regs, dest: Option<Register>, w: Word): Regs {
    match dest
    case Some(r) => regs[r := w]
    case None => regs
  }

  function Execute(inst: Instruction, regs: Regs, storage: Storage, call: Oracle): (Regs, Storage) {
    var (w, s) := Compute(inst, Values(regs, Operands(inst)), storage, call);
    (Assign(regs, DestRegister(inst), w), s)
  }

  function ExecuteAll(body: seq<Instruction>, regs: Regs, storage: Storage, call: Oracle): (Regs, Storage) {
    if body == [] then (regs, storage)
    else
      var (r, s) := ExecuteAll(body[..|body| - 1], regs, storage, call);
      Execute(body[|body| - 1], r, s, call)
  }

  /** The register a phi node takes when control comes from `p`. */
  function SourceFrom(sources: seq<(BlockId, Register)>, p: BlockId): (r: Option<Register>)
    ensures r.Some? ==> (p, r.value) in sources
    ensures r.None? ==> forall i :: 0 <= i < |sources| ==> sources[i].0 != p
  {
    if sources == [] then None
    else if sources[0].0 == p then Some(sources[0].1)
    else SourceFrom(sources[1..], p)
  }

  /** All phi nodes read the registers as they were (`old_`). */
  function EnterPhis(phis: seq<Phi>, p: BlockId, old_: Regs): Regs {
    if phis == [] then old_
    else
      var n := |phis| - 1;
      match SourceFrom(phis[n].sources, p)
      case Some(r) => EnterPhis(phis[..n], p, old_)[phis[n].dest := Read(old_, r)]
      case None => EnterPhis(phis[..n], p, old_)
  }

  /** Control stands behind the phi nodes of a block, or the function is over. */
  datatype State =
    | At(block: BlockId, regs: Regs, storage: Storage)
    | Done(value: Option<Word>, storage: Storage)
    | Stuck

  function Enter(blocks: Blocks, b: BlockId, from: BlockId, regs: Regs, storage: Storage): State {
    if b in blocks then At(b, EnterPhis(blocks[b].phis, from, regs), storage) else Stuck
  }

  function Finish(blocks: Blocks, b: BlockId, t: Terminator, regs: Regs, storage: Storage): State {
    match t
    case Jump(target) => Enter(blocks, target, b, regs, storage)
    case Branch(condition, thenBlock, elseBlock) =>
      Enter(blocks, if Value(regs, condition) != 0 then thenBlock else elseBlock, b, regs, storage)
    case Return(Some(o)) => Done(Some(Value(regs, o)), storage)
    case Return(None) => Done(None, storage)
    case Unreachable => Stuck
  }

  /** Run one block to the start of the next. */
  function StepBlock(blocks: Blocks, s: State, call: Oracle): State {
    match s
    case At(b, regs, storage) =>
      if b !in blocks then Stuck
      else
        var (r, st) := ExecuteAll(blocks[b].body, regs, storage, call);
        Finish(blocks, b, blocks[b].term, r, st)
    case _ => s
  }

  function Steps(blocks: Blocks, s: State, n: nat, call: Oracle): State {
    if n == 0 then s else StepBlock(blocks, Steps(blocks, s, n - 1, call), call)
  }
}
