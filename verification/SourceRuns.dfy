/**
 * What a contract's functions mean as they are built: a small-step semantics with a
 * stack of activations, over code without phi nodes whose registers all have version 0.
 */
module SourceRuns {
  import opened Wrappers
  import opened Words
  import opened Ssa
  import opened SsaSemantics

  type FnId = nat

  /** A function as it is built. */
  datatype SourceFunction = SourceFunction(
    id: FnId, blocks: Blocks, entry: BlockId, parameters: seq<Symbol>, isExternal: bool, returnsValue: bool)

  type SourceProgram = map<FnId, SourceFunction>

  datatype Activation = Activation(fn: FnId, block: BlockId, index: nat, regs: Regs)

  /** Innermost activation first. */
  datatype Run =
    | Live(acts: seq<Activation>, storage: Storage)
    | Finished(value: Option<Word>, storage: Storage)
    | Failed

  /** The registers of a fresh activation: the parameters hold the arguments. */
  function BoundArguments(parameters: seq<Symbol>, values: seq<Word>): Regs
    requires |parameters| == |values|
  {
    if parameters == [] then map[]
    else
      var n := |parameters| - 1;
      BoundArguments(parameters[..n], values[..n])[First(parameters[n]) := values[n]]
  }

  function Invoke(src: SourceFunction, fn: FnId, values: seq<Word>): Activation
    requires |values| == |src.parameters|
  {
    Activation(fn, src.entry, 0, BoundArguments(src.parameters, values))
  }

  /** Instructions other than calls do not ask. */
  const NoCall: Oracle := (target, values, storage) => (0, storage)

  function StepSource(p: SourceProgram, c: Run): Run {
    if !c.Live? || c.acts == [] then Failed
    else
      var a := c.acts[0];
      if a.fn !in p || a.block !in p[a.fn].blocks then Failed
      else
        var block := p[a.fn].blocks[a.block];
        if a.index < |block.body| then StepInstruction(p, block.body[a.index], c.acts, c.storage)
        else StepTerminator(p, block.term, c.acts, c.storage)
  }

  function StepInstruction(p: SourceProgram, inst: Instruction, acts: seq<Activation>, storage: Storage): Run
    requires acts != []
  {
    var a := acts[0];
    if inst.Call? then
      if inst.target.External? || inst.target.fn !in p || |inst.args| != |p[inst.target.fn].parameters| then Failed
      else Live([Invoke(p[inst.target.fn], inst.target.fn, Values(a.regs, inst.args))] + acts, storage)
    else
      var (regs, storage') := Execute(inst, a.regs, storage, NoCall);
      Live([a.(index := a.index + 1, regs := regs)] + acts[1..], storage')
  }

  function StepTerminator(p: SourceProgram, t: Terminator, acts: seq<Activation>, storage: Storage): Run
    requires acts != []
  {
    var a := acts[0];
    match t
    case Jump(target) => Live([a.(block := target, index := 0)] + acts[1..], storage)
    case Branch(condition, thenBlock, elseBlock) =>
      var target := if Value(a.regs, condition) != 0 then thenBlock else elseBlock;
      Live([a.(block := target, index := 0)] + acts[1..], storage)
    case Return(v) =>
      var value := match v case Some(o) => Some(Value(a.regs, o)) case None => None;
      if |acts| == 1 then Finished(value, storage)
      else
        match CallAt(p, acts[1]) {
          case Some(call) => Live([Resume(acts[1], call, value)] + acts[2..], storage)
          case None => Failed
        }
    case Unreachable => Failed
  }

  /** The call an activation waits in. */
  function CallAt(p: SourceProgram, a: Activation): (r: Option<Instruction>)
    ensures r.Some? ==> r.value.Call?
  {
    if a.fn in p && a.block in p[a.fn].blocks then
      var body := p[a.fn].blocks[a.block].body;
      if a.index < |body| && body[a.index].Call? then Some(body[a.index]) else None
    else None
  }

  /** The caller's activation after its call returned. */
  function Resume(caller: Activation, call: Instruction, value: Option<Word>): Activation
    requires call.Call?
  {
    caller.(
      index := caller.index + 1,
      regs := match (call.result, value)
              case (Some(r), Some(w)) => caller.regs[r := w]
              case _ => caller.regs)
  }

  /** n steps, stopping early when the run is over. */
  function RunSource(p: SourceProgram, c: Run, n: nat): Run
    decreases n
  {
    if n == 0 || !c.Live? then c else RunSource(p, StepSource(p, c), n - 1)
  }

  /** What typing guarantees: values are returned exactly where they are expected. */
  ghost predicate Typed(p: SourceProgram) {
    && (forall fn, b :: fn in p && b in p[fn].blocks ==> ReturnsTyped(p[fn], p[fn].blocks[b].term))
    && forall fn, b, i {:trigger p[fn].blocks[b].body[i]} ::
         fn in p && b in p[fn].blocks && 0 <= i < |p[fn].blocks[b].body| ==> CallTyped(p, p[fn].blocks[b].body[i])
  }

  predicate ReturnsTyped(src: SourceFunction, t: Terminator) {
    t.Return? ==> t.value.Some? == src.returnsValue
  }

  predicate CallTyped(p: SourceProgram, inst: Instruction) {
    inst.Call? && inst.target.Internal? && inst.target.fn in p && inst.result.Some? ==>
      p[inst.target.fn].returnsValue
  }
}
