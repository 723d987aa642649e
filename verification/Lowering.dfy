/**
 * Lowering phi-free SSA code to register slots (codegen/src/lib.rs and
 * codegen/src/lowering/type_lowering.rs): a slot for every register, a storage key for every
 * storage variable, and no code for what only verification needs.
 */
module Lowering {
  import opened Wrappers
  import opened Sequences
  import opened Words
  import opened Graphs
  import Lowered
  import Ssa

  type RegisterMap = map<Ssa.Register, Lowered.Slot>
  type StorageKeys = map<Ssa.Symbol, Uint64>

  // ---------------------------------------------------------------------------
  // Instructions
  // ---------------------------------------------------------------------------

  function LowerOperand(o: Ssa.Operand, m: RegisterMap): Result<Lowered.Operand> {
    match o
    case Location(r) => if r in m then Ok(Lowered.Location(m[r])) else Err(MissingRegister)
    case Literal(c) => Ok(Lowered.Literal(c))
  }

  function LowerOperands(os: seq<Ssa.Operand>, m: RegisterMap): Result<seq<Lowered.Operand>> {
    if os == [] then Ok([])
    else
      var init :- LowerOperands(os[..|os| - 1], m);
      var last :- LowerOperand(os[|os| - 1], m);
      Ok(init + [last])
  }

  function SlotFor(r: Ssa.Register, m: RegisterMap): Result<Lowered.Slot> {
    if r in m then Ok(m[r]) else Err(MissingRegister)
  }

  function KeyFor(x: Ssa.Symbol, keys: StorageKeys): Result<Uint64> {
    if x in keys then Ok(keys[x]) else Err(MissingStorageKey)
  }

  function LowerTarget(target: Ssa.Target): Lowered.CallTarget {
    match target
    case Internal(fn) => Lowered.Internal(fn)
    case External(_) => Lowered.External
  }

  /** The code of an instruction, or none if only verification needs it. */
  function LowerInstruction(
      inst: Ssa.Instruction, m: RegisterMap, keys: StorageKeys): Result<Option<Lowered.Instruction>>
  {
    match inst
    case Copy(dest, source) =>
      var d :- SlotFor(dest, m);
      var o :- LowerOperand(source, m);
      Ok(Some(Lowered.Copy(d, o)))
    case BinaryOp(dest, op, left, right) =>
      var d :- SlotFor(dest, m);
      var l :- LowerOperand(left, m);
      var r :- LowerOperand(right, m);
      Ok(Some(Lowered.BinaryOp(d, op, l, r)))
    case UnaryOp(dest, uop, operand) =>
      var d :- SlotFor(dest, m);
      var o :- LowerOperand(operand, m);
      Ok(Some(Lowered.UnaryOp(d, uop, o)))
    case StorageLoad(dest, x) =>
      var d :- SlotFor(dest, m);
      var key :- KeyFor(x, keys);
      Ok(Some(Lowered.StorageLoad(d, key)))
    case StorageStore(x, value) =>
      var o :- LowerOperand(value, m);
      var key :- KeyFor(x, keys);
      Ok(Some(Lowered.StorageStore(key, o)))
    case Call(None, target, args) =>
      var os :- LowerOperands(args, m);
      Ok(Some(Lowered.Call(None, LowerTarget(target), os)))
    case Call(Some(dest), target, args) =>
      var d :- SlotFor(dest, m);
      var os :- LowerOperands(args, m);
      Ok(Some(Lowered.Call(Some(d), LowerTarget(target), os)))
    case Fold(_) => Ok(None)
    case Unfold(_) => Ok(None)
    case Assert(_) => Ok(None)
  }

  function LowerBody(body: seq<Ssa.Instruction>, m: RegisterMap, keys: StorageKeys): Result<seq<Lowered.Instruction>> {
    if body == [] then Ok([])
    else
      var init :- LowerBody(body[..|body| - 1], m, keys);
      var last :- LowerInstruction(body[|body| - 1], m, keys);
      Ok(match last case Some(inst) => init + [inst] case None => init)
  }

  function LowerTerminator(t: Ssa.Terminator, m: RegisterMap): Result<Lowered.Terminator> {
    match t
    case Jump(target) => Ok(Lowered.Jump(target))
    case Branch(condition, thenBlock, elseBlock) =>
      var o :- LowerOperand(condition, m);
      Ok(Lowered.Branch(o, thenBlock, elseBlock))
    case Return(Some(value)) =>
      var o :- LowerOperand(value, m);
      Ok(Lowered.Return(Some(o)))
    case Return(None) => Ok(Lowered.Return(None))
    case Unreachable => Ok(Lowered.Unreachable)
  }

  function LowerBlock(b: Ssa.Block, m: RegisterMap, keys: StorageKeys): Result<Lowered.Block> {
    var instructions :- LowerBody(b.body, m, keys);
    var terminator :- LowerTerminator(b.term, m);
    Ok(Lowered.Block(instructions, terminator, b.predecessors, b.successors))
  }

  /** Every block lowers to the block of the same name. */
  ghost predicate LowersTo(
      blocks: Ssa.Blocks, m: RegisterMap, keys: StorageKeys, lowered: map<Lowered.BlockId, Lowered.Block>)
  {
    && lowered.Keys == blocks.Keys
    && forall b :: b in blocks ==> LowerBlock(blocks[b], m, keys) == Ok(lowered[b])
  }

  // ---------------------------------------------------------------------------
  // Registers
  // ---------------------------------------------------------------------------

  ghost predicate Injective(m: RegisterMap) {
    forall r, q :: r in m && q in m && m[r] == m[q] ==> r == q
  }

  /** The slots in use are the numbers below the size of the map. */
  ghost predicate Dense(m: RegisterMap) {
    Injective(m) && forall r :: r in m ==> m[r] < |m|
  }

  /** The registers that instructions define. */
  function Destinations(body: seq<Ssa.Instruction>): set<Ssa.Register> {
    set i | 0 <= i < |body| && Ssa.DestRegister(body[i]).Some? :: Ssa.DestRegister(body[i]).value
  }

  /** The registers of a function: version 0 of its parameters, and what its instructions define. */
  ghost function RegistersOf(blocks: Ssa.Blocks, parameters: seq<Ssa.Symbol>): set<Ssa.Register> {
    ParameterRegisters(parameters) + BlockRegisters(blocks, blocks.Keys)
  }

  ghost function ParameterRegisters(parameters: seq<Ssa.Symbol>): set<Ssa.Register> {
    set x | x in parameters :: Ssa.First(x)
  }

  ghost function BlockRegisters(blocks: Ssa.Blocks, done: set<Ssa.BlockId>): set<Ssa.Register> {
    set b, r | b in done && b in blocks && r in Destinations(blocks[b].body) :: r
  }

  /** What had a slot keeps it. */
  ghost predicate Extends(m: RegisterMap, m': RegisterMap) {
    forall r :: r in m ==> r in m' && m'[r] == m[r]
  }

  lemma ExtendsFurther(a: RegisterMap, b: RegisterMap, c: RegisterMap)
    requires Extends(a, b) && Extends(b, c)
    ensures Extends(a, c)
  {
  }

  lemma ExtendsItself(m: RegisterMap)
    ensures Extends(m, m)
  {
  }

  method Allocate(m: RegisterMap, r: Ssa.Register) returns (m': RegisterMap)
    requires Dense(m)
    ensures Dense(m') && m'.Keys == m.Keys + {r} && Extends(m, m')
    ensures r !in m ==> m'[r] == |m| && |m'| == |m| + 1
  {
    if r in m {
      return m;
    }
    m' := m[r := |m|];
    assert |m'| == |m| + 1 by { GrownSize(m, r, |m|); }
  }

  lemma GrownSize(m: RegisterMap, r: Ssa.Register, s: Lowered.Slot)
    requires r !in m
    ensures |m[r := s]| == |m| + 1
  {
    assert m[r := s].Keys == m.Keys + {r};
    assert |m[r := s].Keys| == |m.Keys| + 1;
  }

  method AllocateBody(m: RegisterMap, body: seq<Ssa.Instruction>) returns (m': RegisterMap)
    requires Dense(m)
    ensures Dense(m') && m'.Keys == m.Keys + Destinations(body) && Extends(m, m')
  {
    hide Dense, Destinations, Ssa.DestRegister, Extends;
    NoDestinations(body[..0]);
    ExtendsItself(m);
    m' := m;
    for i := 0 to |body|
      invariant Dense(m') && m'.Keys == m.Keys + Destinations(body[..i]) && Extends(m, m')
    {
      DestinationsNext(body, i);
      ghost var longer := body[..i + 1];
      var d := Ssa.DestRegister(body[i]);
      if d.Some? {
        ghost var before := m';
        m' := Allocate(m', d.value);
        ExtendsFurther(m, before, m');
        KeysGrow(m.Keys, Destinations(body[..i]), d.value);
        assert m'.Keys == m.Keys + Destinations(longer);
      }
    }
    assert body[..|body|] == body;
  }

  lemma KeysGrow(a: set<Ssa.Register>, b: set<Ssa.Register>, r: Ssa.Register)
    ensures a + b + {r} == a + (b + {r})
  {
  }

  lemma NoDestinations(body: seq<Ssa.Instruction>)
    requires body == []
    ensures Destinations(body) == {}
  {
  }

  lemma DestinationsNext(body: seq<Ssa.Instruction>, i: nat)
    requires i < |body|
    ensures Destinations(body[..i + 1]) == Destinations(body[..i]) +
              (if Ssa.DestRegister(body[i]).Some? then {Ssa.DestRegister(body[i]).value} else {})
  {
    var longer := body[..i + 1];
    assert forall k :: 0 <= k < i ==> longer[k] == body[..i][k];
    forall r | r in Destinations(body[..i]) ensures r in Destinations(longer) {
      var k :| 0 <= k < i && Ssa.DestRegister(body[..i][k]) == Some(r);
      assert longer[k] == body[..i][k];
    }
    assert longer[i] == body[i];
  }

  /** The parameters have the first slots, in their order. */
  ghost predicate ParametersFirst(parameters: seq<Ssa.Symbol>, m: RegisterMap) {
    forall i :: 0 <= i < |parameters| ==> Ssa.First(parameters[i]) in m && m[Ssa.First(parameters[i])] == i
  }

  lemma NoFirsts(parameters: seq<Ssa.Symbol>, m: RegisterMap)
    requires parameters == []
    ensures ParametersFirst(parameters, m)
  {
  }

  lemma FirstsStay(parameters: seq<Ssa.Symbol>, m: RegisterMap, m': RegisterMap)
    requires Extends(m, m')
    ensures ParametersFirst(parameters, m) ==> ParametersFirst(parameters, m')
  {
  }

  lemma FirstsNext(parameters: seq<Ssa.Symbol>, i: nat, m: RegisterMap, m': RegisterMap)
    requires i < |parameters| && ParametersFirst(parameters[..i], m) && Extends(m, m')
    requires Ssa.First(parameters[i]) in m' && m'[Ssa.First(parameters[i])] == i
    ensures ParametersFirst(parameters[..i + 1], m')
  {
    var longer := parameters[..i + 1];
    forall k | 0 <= k < |longer| ensures Ssa.First(longer[k]) in m' && m'[Ssa.First(longer[k])] == k {
      if k < i {
        assert parameters[..i][k] == longer[k];
      }
    }
  }

  lemma NotYet(parameters: seq<Ssa.Symbol>, i: nat)
    requires Distinct(parameters) && i < |parameters|
    ensures Ssa.First(parameters[i]) !in ParameterRegisters(parameters[..i])
  {
    forall x | x in parameters[..i] ensures x != parameters[i] {
      var j :| 0 <= j < i && parameters[..i][j] == x;
      assert parameters[j] == x;
    }
  }

  /** `lower_registers`: parameters first, then every destination in whatever order the blocks come. */
  method LowerRegisters(blocks: Ssa.Blocks, parameters: seq<Ssa.Symbol>) returns (m: RegisterMap)
    ensures Dense(m) && m.Keys == RegistersOf(blocks, parameters)
    ensures Distinct(parameters) ==> ParametersFirst(parameters, m)
  {
    hide Distinct, Destinations, Dense, ParameterRegisters, BlockRegisters, ToSet, Extends, ParametersFirst;
    m := map[];
    NothingAllocated(blocks);
    NoFirsts(parameters[..0], m);
    for i := 0 to |parameters|
      invariant Dense(m) && m.Keys == ParameterRegisters(parameters[..i])
      invariant Distinct(parameters) ==> |m| == i && ParametersFirst(parameters[..i], m)
    {
      ParametersNext(parameters, i);
      ghost var before := m;
      m := Allocate(m, Ssa.First(parameters[i]));
      if Distinct(parameters) {
        NotYet(parameters, i);
        FirstsNext(parameters, i, before, m);
      }
    }
    assert parameters[..|parameters|] == parameters;
    var ids := AnyOrder(blocks.Keys);
    NoElements(ids[..0]);
    for k := 0 to |ids|
      invariant Dense(m) && m.Keys == ParameterRegisters(parameters) + BlockRegisters(blocks, ToSet(ids[..k]))
      invariant Distinct(parameters) ==> ParametersFirst(parameters, m)
    {
      PrefixGrows(ids, k);
      BlocksNext(blocks, ToSet(ids[..k]), ids[k]);
      ghost var before := m;
      m := AllocateBody(m, blocks[ids[k]].body);
      FirstsStay(parameters, before, m);
    }
    assert ids[..|ids|] == ids;
  }

  lemma NothingAllocated(blocks: Ssa.Blocks)
    ensures Dense(map[]) && ParameterRegisters([]) == {} && BlockRegisters(blocks, {}) == {}
  {
  }

  lemma ParametersNext(parameters: seq<Ssa.Symbol>, i: nat)
    requires i < |parameters|
    ensures ParameterRegisters(parameters[..i + 1]) == ParameterRegisters(parameters[..i]) + {Ssa.First(parameters[i])}
  {
    assert parameters[..i + 1] == parameters[..i] + [parameters[i]];
  }

  lemma BlocksNext(blocks: Ssa.Blocks, done: set<Ssa.BlockId>, b: Ssa.BlockId)
    requires b in blocks
    ensures BlockRegisters(blocks, done + {b}) == BlockRegisters(blocks, done) + Destinations(blocks[b].body)
  {
    hide Destinations;
  }

  // ---------------------------------------------------------------------------
  // Functions
  // ---------------------------------------------------------------------------

  /** The loop of `lower_function` over the blocks, in whatever order they come. */
  method LowerBlocks(blocks: Ssa.Blocks, m: RegisterMap, keys: StorageKeys)
    returns (r: Result<map<Lowered.BlockId, Lowered.Block>>)
    ensures r.Ok? ==> LowersTo(blocks, m, keys, r.value)
    ensures r.Err? ==> exists b :: b in blocks && LowerBlock(blocks[b], m, keys) == Err(r.error)
  {
    hide LowerBlock, Distinct;
    var lowered := map[];
    var ids := AnyOrder(blocks.Keys);
    for k := 0 to |ids|
      invariant lowered.Keys == ToSet(ids[..k])
      invariant forall b :: b in lowered ==> b in blocks && LowerBlock(blocks[b], m, keys) == Ok(lowered[b])
    {
      PrefixGrows(ids, k);
      var b := LowerBlock(blocks[ids[k]], m, keys);
      if b.Err? {
        return Err(b.error);
      }
      lowered := lowered[ids[k] := b.value];
    }
    assert ids[..|ids|] == ids;
    r := Ok(lowered);
  }
}
