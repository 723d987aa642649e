/**
 * What SSA renaming has to achieve (ir/src/ssa_ir.rs): an environment gives each
 * symbol its current version, and flows down the dominator tree.
 */
module RenamingSpec {
  import opened Wrappers
  import opened Sequences
  import opened Ssa

  /** The current version of every symbol that has one. */
  type Env = map<Symbol, nat>

  function Bound(env: Env, r: Option<Register>): Env {
    match r
    case Some(reg) => env[reg.symbol := reg.version]
    case None => env
  }

  function EnvAfterPhis(env: Env, phis: seq<Phi>): Env {
    if phis == [] then env else Bound(EnvAfterPhis(env, phis[..|phis| - 1]), Some(phis[|phis| - 1].dest))
  }

  function EnvAfterBody(env: Env, body: seq<Instruction>): Env {
    if body == [] then env else Bound(EnvAfterBody(env, body[..|body| - 1]), DestRegister(body[|body| - 1]))
  }

  /** The environment at the end of a block, from the one at its start. */
  function EnvOut(env: Env, b: Block): Env {
    EnvAfterBody(EnvAfterPhis(env, b.phis), b.body)
  }

  // ---------------------------------------------------------------------------
  // Renaming one thing
  // ---------------------------------------------------------------------------

  /** The current version of a register, if its symbol has one. */
  function RenameOperand(o: Operand, env: Env): Option<Operand> {
    match o
    case Literal(_) => Some(o)
    case Location(r) => if r.symbol in env then Some(Location(Register(r.symbol, env[r.symbol]))) else None
  }

  function RenameOperands(os: seq<Operand>, env: Env): (r: Option<seq<Operand>>)
    ensures r.Some? ==> |r.value| == |os| && forall i :: 0 <= i < |os| ==> RenameOperand(os[i], env) == Some(r.value[i])
    ensures r.None? <==> exists i :: 0 <= i < |os| && RenameOperand(os[i], env).None?
  {
    if os == [] then Some([])
    else
      match (RenameOperands(os[..|os| - 1], env), RenameOperand(os[|os| - 1], env)) {
        case (Some(init), Some(last)) => Some(init + [last])
        case _ => None
      }
  }

  /** Read operands under `env`; write version `v`. */
  function RenameInstruction(inst: Instruction, env: Env, v: nat): Option<Instruction> {
    match RenameOperands(Operands(inst), env)
    case None => None
    case Some(os) => Some(Rebuilt(inst, os, v))
  }

  /** The instruction with other operands and another destination version. */
  function Rebuilt(inst: Instruction, os: seq<Operand>, v: nat): Instruction
    requires |os| == |Operands(inst)|
  {
    match inst
    case Copy(dest, _) => Copy(Register(dest.symbol, v), os[0])
    case BinaryOp(dest, op, _, _) => BinaryOp(Register(dest.symbol, v), op, os[0], os[1])
    case UnaryOp(dest, uop, _) => UnaryOp(Register(dest.symbol, v), uop, os[0])
    case StorageLoad(dest, x) => StorageLoad(Register(dest.symbol, v), x)
    case StorageStore(x, _) => StorageStore(x, os[0])
    case Call(None, target, _) => Call(None, target, os)
    case Call(Some(dest), target, _) => Call(Some(Register(dest.symbol, v)), target, os)
    case Fold(_) => inst
    case Unfold(_) => inst
    case Assert(_) => Assert(os[0])
  }

  function RenameTerminator(t: Terminator, env: Env): Option<Terminator> {
    match t
    case Branch(condition, thenBlock, elseBlock) =>
      (match RenameOperand(condition, env)
       case Some(c) => Some(Branch(c, thenBlock, elseBlock))
       case None => None)
    case Return(Some(o)) =>
      (match RenameOperand(o, env)
       case Some(r) => Some(Return(Some(r)))
       case None => None)
    case _ => Some(t)
  }

  function VersionOf(inst: Instruction): nat {
    match DestRegister(inst)
    case Some(r) => r.version
    case None => 0
  }

  // ---------------------------------------------------------------------------
  // Renaming blocks
  // ---------------------------------------------------------------------------

  ghost predicate BodyRenamed(body0: seq<Instruction>, body1: seq<Instruction>, env: Env) {
    && |body0| == |body1|
    && forall i :: 0 <= i < |body0| ==>
         RenameInstruction(body0[i], EnvAfterBody(env, body1[..i]), VersionOf(body1[i])) == Some(body1[i])
  }

  ghost predicate SameSymbols(phis0: seq<Phi>, phis1: seq<Phi>) {
    |phis0| == |phis1| && forall k :: 0 <= k < |phis0| ==> phis0[k].dest.symbol == phis1[k].dest.symbol
  }

  /** Block b1 is block b0 renamed, entered with `env`. The sources of its phi nodes are another matter. */
  ghost predicate BlockRenamed(b0: Block, b1: Block, env: Env) {
    && SameSymbols(b0.phis, b1.phis)
    && BodyRenamed(b0.body, b1.body, EnvAfterPhis(env, b1.phis))
    && RenameTerminator(b0.term, EnvOut(env, b1)) == Some(b1.term)
    && b1.predecessors == b0.predecessors && b1.successors == b0.successors
  }

  /** Nothing but the sources of phi nodes differs. */
  ghost predicate SameButSources(b0: Block, b1: Block) {
    && |b0.phis| == |b1.phis| && (forall k :: 0 <= k < |b0.phis| ==> b0.phis[k].dest == b1.phis[k].dest)
    && b1 == b0.(phis := b1.phis)
  }

  lemma {:induction false} EnvOfSamePhis(env: Env, phis0: seq<Phi>, phis1: seq<Phi>)
    requires |phis0| == |phis1| && forall k :: 0 <= k < |phis0| ==> phis0[k].dest == phis1[k].dest
    ensures EnvAfterPhis(env, phis0) == EnvAfterPhis(env, phis1)
  {
    if phis0 != [] {
      EnvOfSamePhis(env, phis0[..|phis0| - 1], phis1[..|phis1| - 1]);
    }
  }

  lemma EnvOutOfSame(env: Env, b0: Block, b1: Block)
    requires SameButSources(b0, b1)
    ensures EnvOut(env, b0) == EnvOut(env, b1)
  {
    EnvOfSamePhis(env, b0.phis, b1.phis);
  }

  lemma RenamedThenSame(a: Block, b: Block, c: Block, env: Env)
    requires BlockRenamed(a, b, env) && SameButSources(b, c)
    ensures BlockRenamed(a, c, env)
  {
    EnvOfSamePhis(env, b.phis, c.phis);
  }

  lemma SameThenRenamed(a: Block, b: Block, c: Block, env: Env)
    requires SameButSources(a, b) && BlockRenamed(b, c, env)
    ensures BlockRenamed(a, c, env)
  {
  }

  // ---------------------------------------------------------------------------
  // Phi sources
  // ---------------------------------------------------------------------------

  type Sources = seq<(BlockId, Register)>

  ghost predicate OncePerBlock(sources: Sources) {
    forall i, j :: 0 <= i < j < |sources| ==> sources[i].0 != sources[j].0
  }

  /** The version of x at the end of block P is a source from P. */
  ghost predicate IsSource(blocks: Blocks, envs: map<BlockId, Env>, b: BlockId, x: Symbol, p: BlockId, r: Register) {
    && p in envs && p in blocks && b in blocks[p].successors
    && x in EnvOut(envs[p], blocks[p]) && r == Register(x, EnvOut(envs[p], blocks[p])[x])
  }

  /** `more` was appended: one source for each block in `envs` that leads here with a version of x. */
  ghost predicate SourcesGrew(
      old_: Sources, new_: Sources, blocks: Blocks, envs: map<BlockId, Env>, b: BlockId, x: Symbol)
  {
    && |old_| <= |new_| && new_[..|old_|] == old_ && OncePerBlock(new_[|old_|..])
    && forall p: BlockId, r: Register :: (p, r) in new_[|old_|..] <==> IsSource(blocks, envs, b, x, p, r)
  }

  ghost predicate PhisGrew(b0: Block, b1: Block, blocks: Blocks, envs: map<BlockId, Env>, b: BlockId) {
    |b0.phis| == |b1.phis| &&
    forall k :: 0 <= k < |b0.phis| ==>
      SourcesGrew(b0.phis[k].sources, b1.phis[k].sources, blocks, envs, b, b1.phis[k].dest.symbol)
  }

  // ---------------------------------------------------------------------------
  // A pass over some blocks
  // ---------------------------------------------------------------------------

  /** What happened to one block when the blocks in `envs` were renamed. */
  ghost predicate PassAt(blocks0: Blocks, blocks1: Blocks, envs: map<BlockId, Env>, b: BlockId)
    requires b in blocks0 && b in blocks1
  {
    && (if b in envs then BlockRenamed(blocks0[b], blocks1[b], envs[b]) else SameButSources(blocks0[b], blocks1[b]))
    && PhisGrew(blocks0[b], blocks1[b], blocks1, envs, b)
  }

  /** The blocks in `envs` were renamed, each entered with its environment, and told their successors. */
  ghost predicate Pass(blocks0: Blocks, blocks1: Blocks, envs: map<BlockId, Env>) {
    && blocks1.Keys == blocks0.Keys && envs.Keys <= blocks0.Keys
    && forall b :: b in blocks0 ==> PassAt(blocks0, blocks1, envs, b)
  }

  lemma SuccessorsKept(blocks0: Blocks, blocks1: Blocks, envs: map<BlockId, Env>, b: BlockId)
    requires Pass(blocks0, blocks1, envs) && b in blocks0
    ensures blocks1[b].successors == blocks0[b].successors && blocks1[b].predecessors == blocks0[b].predecessors
    ensures SameSymbols(blocks0[b].phis, blocks1[b].phis)
  {
    assert PassAt(blocks0, blocks1, envs, b);
  }

  lemma GrewTwice(s0: Sources, s1: Sources, s2: Sources, blocks1: Blocks, e1: map<BlockId, Env>,
                  blocks2: Blocks, e2: map<BlockId, Env>, b: BlockId, x: Symbol)
    requires SourcesGrew(s0, s1, blocks1, e1, b, x) && SourcesGrew(s1, s2, blocks2, e2, b, x)
    requires e1.Keys !! e2.Keys
    requires forall p: BlockId, r: Register :: IsSource(blocks1, e1, b, x, p, r) <==> IsSource(blocks2, e1, b, x, p, r)
    ensures SourcesGrew(s0, s2, blocks2, e1 + e2, b, x)
  {
    var n1, n2 := s1[|s0|..], s2[|s1|..];
    assert s2 == s0 + n1 + n2 by {
      assert s1 == s0 + n1 && s2 == s1 + n2;
    }
    assert s2[|s0|..] == n1 + n2;
    forall p: BlockId, r: Register ensures (p, r) in n1 + n2 <==> IsSource(blocks2, e1 + e2, b, x, p, r) {
      assert (p, r) in n1 <==> IsSource(blocks2, e1, b, x, p, r);
      assert (p, r) in n2 <==> IsSource(blocks2, e2, b, x, p, r);
    }
    forall i, j | 0 <= i < j < |n1 + n2| ensures (n1 + n2)[i].0 != (n1 + n2)[j].0 {
      if i < |n1| <= j {
        var a, c := n1[i], n2[j - |n1|];
        assert (a.0, a.1) in n1 && (c.0, c.1) in n2;
      }
    }
  }

  /** Renaming some blocks and then others is renaming them all. */
  lemma PassCompose(blocks0: Blocks, blocks1: Blocks, blocks2: Blocks, e1: map<BlockId, Env>, e2: map<BlockId, Env>)
    requires Pass(blocks0, blocks1, e1) && Pass(blocks1, blocks2, e2) && e1.Keys !! e2.Keys
    ensures Pass(blocks0, blocks2, e1 + e2)
  {
    hide BlockRenamed, SameButSources, PhisGrew;
    forall b | b in blocks0 ensures PassAt(blocks0, blocks2, e1 + e2, b) {
      assert PassAt(blocks0, blocks1, e1, b) && PassAt(blocks1, blocks2, e2, b);
      ComposeBlock(blocks0, blocks1, blocks2, e1, e2, b);
      ComposePhis(blocks0, blocks1, blocks2, e1, e2, b);
    }
  }

  lemma ComposeBlock(
      blocks0: Blocks, blocks1: Blocks, blocks2: Blocks, e1: map<BlockId, Env>, e2: map<BlockId, Env>, b: BlockId)
    requires b in blocks0 && b in blocks1 && b in blocks2 && e1.Keys !! e2.Keys
    requires PassAt(blocks0, blocks1, e1, b) && PassAt(blocks1, blocks2, e2, b)
    ensures if b in e1 + e2 then BlockRenamed(blocks0[b], blocks2[b], (e1 + e2)[b])
        else SameButSources(blocks0[b], blocks2[b])
  {
    hide BlockRenamed, PhisGrew;
    if b in e1 {
      RenamedThenSame(blocks0[b], blocks1[b], blocks2[b], e1[b]);
    } else if b in e2 {
      SameThenRenamed(blocks0[b], blocks1[b], blocks2[b], e2[b]);
    }
  }

  /** A source found in an earlier pass is still one: its block was not touched since. */
  lemma SourceStays(
      blocks0: Blocks, blocks1: Blocks, e1: map<BlockId, Env>, e2: map<BlockId, Env>,
      b: BlockId, x: Symbol, p: BlockId, r: Register)
    requires Pass(blocks0, blocks1, e2) && e1.Keys !! e2.Keys
    ensures IsSource(blocks0, e1, b, x, p, r) <==> IsSource(blocks1, e1, b, x, p, r)
  {
    hide BlockRenamed, PhisGrew, EnvOut;
    if p in e1 && p in blocks0 {
      assert PassAt(blocks0, blocks1, e2, p);
      EnvOutOfSame(e1[p], blocks0[p], blocks1[p]);
    }
  }

  lemma ComposePhis(
      blocks0: Blocks, blocks1: Blocks, blocks2: Blocks, e1: map<BlockId, Env>, e2: map<BlockId, Env>, b: BlockId)
    requires Pass(blocks0, blocks1, e1) && Pass(blocks1, blocks2, e2) && e1.Keys !! e2.Keys && b in blocks0
    ensures PhisGrew(blocks0[b], blocks2[b], blocks2, e1 + e2, b)
  {
    hide BlockRenamed, SourcesGrew, IsSource;
    assert PassAt(blocks0, blocks1, e1, b) && PassAt(blocks1, blocks2, e2, b);
    SuccessorsKept(blocks1, blocks2, e2, b);
    forall k | 0 <= k < |blocks0[b].phis|
      ensures SourcesGrew(blocks0[b].phis[k].sources, blocks2[b].phis[k].sources, blocks2, e1 + e2, b,
          blocks2[b].phis[k].dest.symbol)
    {
      var x := blocks2[b].phis[k].dest.symbol;
      forall p: BlockId, r: Register ensures IsSource(blocks1, e1, b, x, p, r) <==> IsSource(blocks2, e1, b, x, p, r) {
        SourceStays(blocks1, blocks2, e1, e2, b, x, p, r);
      }
      GrewTwice(blocks0[b].phis[k].sources, blocks1[b].phis[k].sources, blocks2[b].phis[k].sources,
                blocks1, e1, blocks2, e2, b, x);
    }
  }

  // ---------------------------------------------------------------------------
  // Single assignment
  // ---------------------------------------------------------------------------

  function BodyDests(body: seq<Instruction>): seq<Register> {
    if body == [] then []
    else
      BodyDests(body[..|body| - 1]) +
      match DestRegister(body[|body| - 1]) { case Some(r) => [r] case None => [] }
  }

  function PhiDests(phis: seq<Phi>): seq<Register> {
    if phis == [] then [] else PhiDests(phis[..|phis| - 1]) + [phis[|phis| - 1].dest]
  }

  /** The registers a block defines. */
  function Dests(b: Block): seq<Register> {
    PhiDests(b.phis) + BodyDests(b.body)
  }

  type Counters = map<Symbol, nat>

  function Count(counters: Counters, x: Symbol): nat {
    if x in counters then counters[x] else 0
  }

  ghost predicate CountersGrow(c0: Counters, c1: Counters) {
    forall x :: Count(c0, x) <= Count(c1, x)
  }

  /** Registers numbered between two states of the counters. */
  ghost predicate Between(c0: Counters, c1: Counters, r: Register) {
    Count(c0, r.symbol) <= r.version < Count(c1, r.symbol)
  }

  /** The renamed blocks define registers of their own: none twice, and all numbered in this pass. */
  ghost predicate SingleAssignment(blocks: Blocks, done: set<BlockId>, c0: Counters, c1: Counters) {
    && CountersGrow(c0, c1) && done <= blocks.Keys
    && (forall b :: b in done ==> Distinct(Dests(blocks[b])) && forall r :: r in Dests(blocks[b]) ==>
        Between(c0, c1, r))
    && (forall b, c :: b in done && c in done && b != c ==> ToSet(Dests(blocks[b])) !! ToSet(Dests(blocks[c])))
  }

  lemma {:induction false} PhiDestsOfSame(phis0: seq<Phi>, phis1: seq<Phi>)
    requires |phis0| == |phis1| && forall k :: 0 <= k < |phis0| ==> phis0[k].dest == phis1[k].dest
    ensures PhiDests(phis0) == PhiDests(phis1)
  {
    if phis0 != [] {
      PhiDestsOfSame(phis0[..|phis0| - 1], phis1[..|phis1| - 1]);
    }
  }

  lemma AssignmentCompose(
      blocks1: Blocks, blocks2: Blocks, e1: map<BlockId, Env>, e2: map<BlockId, Env>, c0: Counters, c1: Counters,
      c2: Counters)
    requires SingleAssignment(blocks1, e1.Keys, c0, c1) && SingleAssignment(blocks2, e2.Keys, c1, c2)
    requires Pass(blocks1, blocks2, e2) && e1.Keys !! e2.Keys
    ensures SingleAssignment(blocks2, (e1 + e2).Keys, c0, c2)
  {
    hide BlockRenamed, PhisGrew, Dests, Distinct;
    forall b | b in e1 ensures Dests(blocks2[b]) == Dests(blocks1[b]) {
      assert PassAt(blocks1, blocks2, e2, b);
      DestsOfSame(blocks1[b], blocks2[b]);
    }
    forall b, c | b in e1 && c in e2 ensures ToSet(Dests(blocks2[b])) !! ToSet(Dests(blocks2[c])) {
      NumberedApart(Dests(blocks2[b]), Dests(blocks2[c]), c0, c1, c2);
    }
  }

  lemma NumberedApart(a: seq<Register>, b: seq<Register>, c0: Counters, c1: Counters, c2: Counters)
    requires forall r :: r in a ==> Between(c0, c1, r)
    requires forall r :: r in b ==> Between(c1, c2, r)
    ensures ToSet(a) !! ToSet(b)
  {
  }

  lemma DestsOfSame(b0: Block, b1: Block)
    requires SameButSources(b0, b1)
    ensures Dests(b0) == Dests(b1)
  {
    PhiDestsOfSame(b0.phis, b1.phis);
  }
}
