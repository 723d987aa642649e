/**
 * SSA construction and phi elimination preserve meaning. The function as it was before
 * either, the renamed function with its phi nodes, and the function whose phi
 * nodes became copies run in step, with the same storage and the same results.
 */
module SsaCorrect {
  import opened Wrappers
  import opened Sequences
  import opened Words
  import Semantics
  import opened Graphs
  import opened Dominance
  import opened Frontier
  import opened Ssa
  import opened PhiPlacement
  import opened RenamingSpec
  import opened Renaming
  import opened RenamingWalk
  import opened SsaSemantics
  import opened RenamingMeaning
  import opened PhiElim

  /** The register of a symbol in the function as it is built: version 0. */
  ghost predicate UnversionedOperands(os: seq<Operand>) {
    forall i :: 0 <= i < |os| && os[i].Location? ==> os[i].reg.version == 0
  }

  ghost predicate UnversionedInstruction(inst: Instruction) {
    UnversionedOperands(Operands(inst)) && (DestRegister(inst).Some? ==> DestRegister(inst).value.version == 0)
  }

  /** Before renaming every register has version 0. */
  ghost predicate Unversioned(blocks: Blocks) {
    forall b :: b in blocks ==>
      && (forall i :: 0 <= i < |blocks[b].body| ==> UnversionedInstruction(blocks[b].body[i]))
      && UnversionedOperands(TerminatorOperands(blocks[b].term))
  }

  /**
   * The current version of every symbol holds its value; what has no version has
   * not been assigned; and no version of an unassigned symbol holds anything but 0.
   */
  ghost predicate Match(regs0: Regs, regs1: Regs, env: Env) {
    && (forall x :: First(x) in regs0 ==> x in env)
    && (forall x :: x in env ==> Read(regs1, Register(x, env[x])) == Read(regs0, First(x)))
    && (forall r: Register :: First(r.symbol) !in regs0 ==> Read(regs1, r) == 0)
  }

  // ---------------------------------------------------------------------------
  // Instructions
  // ---------------------------------------------------------------------------

  lemma OperandMatches(o: Operand, o': Operand, regs0: Regs, regs1: Regs, env: Env)
    requires Match(regs0, regs1, env) && RenameOperand(o, env) == Some(o')
    requires o.Location? ==> o.reg.version == 0
    ensures Value(regs1, o') == Value(regs0, o)
  {
    if o.Location? {
      assert o.reg == First(o.reg.symbol);
    }
  }

  lemma OperandsMatch(os: seq<Operand>, os': seq<Operand>, regs0: Regs, regs1: Regs, env: Env)
    requires Match(regs0, regs1, env) && RenameOperands(os, env) == Some(os') && UnversionedOperands(os)
    ensures Values(regs1, os') == Values(regs0, os)
  {
    hide Match, Value;
    forall i | 0 <= i < |os| ensures Value(regs1, os'[i]) == Value(regs0, os[i]) {
      OperandMatches(os[i], os'[i], regs0, regs1, env);
    }
  }

  lemma RebuiltComputes(inst: Instruction, os: seq<Operand>, v: nat, values: seq<Word>, storage: Storage, call: Oracle)
    requires |os| == |Operands(inst)| == |values|
    ensures Operands(Rebuilt(inst, os, v)) == os
    ensures Compute(Rebuilt(inst, os, v), values, storage, call) == Compute(inst, values, storage, call)
  {
    hide Semantics.BinaryValue, Semantics.UnaryValue;
  }

  lemma AssignMatches(regs0: Regs, regs1: Regs, env: Env, x: Symbol, v: nat, w: Word)
    requires Match(regs0, regs1, env)
    ensures Match(regs0[First(x) := w], regs1[Register(x, v) := w], env[x := v])
  {
  }

  lemma InstructionMatches(
      inst: Instruction, inst': Instruction, env: Env, regs0: Regs, regs1: Regs, storage: Storage, call: Oracle)
    requires RenameInstruction(inst, env, VersionOf(inst')) == Some(inst') && UnversionedInstruction(inst)
    requires Match(regs0, regs1, env)
    ensures var (r0, s0) := Execute(inst, regs0, storage, call);
            var (r1, s1) := Execute(inst', regs1, storage, call);
            s0 == s1 && Match(r0, r1, Bound(env, DestRegister(inst')))
  {
    hide Match, RenameOperands, Rebuilt, Compute, Values;
    var os, v := RenameOperands(Operands(inst), env).value, VersionOf(inst');
    OperandsMatch(Operands(inst), os, regs0, regs1, env);
    var values := Values(regs0, Operands(inst));
    RebuiltComputes(inst, os, v, values, storage, call);
    RebuiltDest(inst, os, v);
    if DestRegister(inst).Some? {
      AssignMatches(regs0, regs1, env, DestRegister(inst).value.symbol, v, Compute(inst, values, storage, call).0);
      assert DestRegister(inst).value == First(DestRegister(inst).value.symbol);
    }
  }

  lemma RenamedPrefix(body0: seq<Instruction>, body1: seq<Instruction>, env: Env, n: nat)
    requires BodyRenamed(body0, body1, env) && n <= |body0|
    ensures BodyRenamed(body0[..n], body1[..n], env)
  {
    hide RenameInstruction, EnvAfterBody;
    forall i | 0 <= i < n
      ensures RenameInstruction(body0[..n][i], EnvAfterBody(env, body1[..n][..i]), VersionOf(body1[..n][i]))
          == Some(body1[..n][i])
    {
      assert body1[..n][..i] == body1[..i];
    }
  }

  lemma {:induction false} BodyMatches(
      body0: seq<Instruction>, body1: seq<Instruction>, env: Env, regs0: Regs, regs1: Regs, storage: Storage,
      call: Oracle)
    requires BodyRenamed(body0, body1, env) && Match(regs0, regs1, env)
    requires forall i :: 0 <= i < |body0| ==> UnversionedInstruction(body0[i])
    ensures var (r0, s0) := ExecuteAll(body0, regs0, storage, call);
            var (r1, s1) := ExecuteAll(body1, regs1, storage, call);
            s0 == s1 && Match(r0, r1, EnvAfterBody(env, body1))
  {
    hide Match, RenameInstruction, UnversionedInstruction, Execute;
    if body0 != [] {
      var n := |body0| - 1;
      RenamedPrefix(body0, body1, env, n);
      BodyMatches(body0[..n], body1[..n], env, regs0, regs1, storage, call);
      var (r0, s0) := ExecuteAll(body0[..n], regs0, storage, call);
      var (r1, s1) := ExecuteAll(body1[..n], regs1, storage, call);
      assert RenameInstruction(body0[n], EnvAfterBody(env, body1[..n]), VersionOf(body1[n])) == Some(body1[n]);
      InstructionMatches(body0[n], body1[n], EnvAfterBody(env, body1[..n]), r0, r1, s0, call);
    }
  }

  // ---------------------------------------------------------------------------
  // Edges
  // ---------------------------------------------------------------------------

  lemma {:induction false} PhiVersion(env: Env, phis: seq<Phi>, k: nat)
    requires Distinct(PhiSymbols(phis)) && k < |phis|
    ensures var x := phis[k].dest.symbol;
            x in EnvAfterPhis(env, phis) && Register(x, EnvAfterPhis(env, phis)[x]) == phis[k].dest
    decreases |phis|
  {
    var n := |phis| - 1;
    if k < n {
      assert PhiSymbols(phis)[k] != PhiSymbols(phis)[n];
      assert PhiSymbols(phis[..n]) == PhiSymbols(phis)[..n];
      PhiVersion(env, phis[..n], k);
    }
  }

  lemma {:induction false} EnterPhisAt(phis: seq<Phi>, p: BlockId, regs: Regs, k: nat)
    requires Distinct(PhiSymbols(phis)) && k < |phis|
    ensures Read(EnterPhis(phis, p, regs), phis[k].dest) ==
            match SourceFrom(phis[k].sources, p) { case Some(r) => Read(regs, r) case None => Read(regs, phis[k].dest) }
    decreases |phis|
  {
    hide SourceFrom;
    var n := |phis| - 1;
    assert PhiSymbols(phis[..n]) == PhiSymbols(phis)[..n];
    if k < n {
      assert PhiSymbols(phis)[k] != PhiSymbols(phis)[n];
      EnterPhisAt(phis[..n], p, regs, k);
    } else {
      assert forall i :: 0 <= i < n ==> PhiSymbols(phis)[i] != PhiSymbols(phis)[n];
      assert phis[n].dest.symbol !in PhiSymbols(phis[..n]);
      EnterPhisElsewhere(phis[..n], p, regs, phis[n].dest);
    }
  }

  lemma {:induction false} EnterPhisElsewhere(phis: seq<Phi>, p: BlockId, regs: Regs, r: Register)
    requires r.symbol !in PhiSymbols(phis)
    ensures Read(EnterPhis(phis, p, regs), r) == Read(regs, r)
  {
    hide SourceFrom;
    if phis != [] {
      var n := |phis| - 1;
      assert PhiSymbols(phis) == PhiSymbols(phis[..n]) + [phis[n].dest.symbol];
      EnterPhisElsewhere(phis[..n], p, regs, r);
    }
  }

  /** The sources of a phi node, after renaming: the version at the end of each predecessor that has one. */
  lemma SourcesAre(s: SsaForm, b: BlockId, k: nat, p: BlockId, r: Register)
    requires FormOk(s) && b in s.blocks && b in s.raw && k < |s.blocks[b].phis| && p in s.envs && p in s.blocks
    ensures (p, r) in s.blocks[b].phis[k].sources <==>
            b in s.blocks[p].successors && s.blocks[b].phis[k].dest.symbol in OutOf(s, p)
            && r == Register(s.blocks[b].phis[k].dest.symbol, OutOf(s, p)[s.blocks[b].phis[k].dest.symbol])
  {
    BlockFacts(s, b);
    hide FormOk, BlockRenamed, EnvOut, Defined, NeedsPhi, SitesOf;
    var phi0, phi := s.placed[b].phis[k], s.blocks[b].phis[k];
    assert SourcesGrew(phi0.sources, phi.sources, s.blocks, s.envs, b, phi.dest.symbol);
    assert phi0.sources == [];
    assert phi.sources[|phi0.sources|..] == phi.sources;
    assert (p, r) in phi.sources <==> IsSource(s.blocks, s.envs, b, phi.dest.symbol, p, r);
  }

  /**
   * What holds of the registers on arriving in a block: its phi nodes and the other current
   * versions have their values.
   */
  ghost predicate Arrived(s: SsaForm, b: BlockId, regs0: Regs, regs: Regs)
    requires b in s.blocks && b in s.envs
  {
    && (forall k :: 0 <= k < |s.blocks[b].phis| ==>
          Read(regs, s.blocks[b].phis[k].dest) == Read(regs0, First(s.blocks[b].phis[k].dest.symbol)))
    && (forall x :: x in s.envs[b] && x !in PhiSymbols(s.blocks[b].phis) ==>
          Read(regs, Register(x, s.envs[b][x])) == Read(regs0, First(x)))
    && (forall x :: First(x) in regs0 ==> x in s.envs[b] || x in PhiSymbols(s.blocks[b].phis))
    && (forall r: Register :: First(r.symbol) !in regs0 ==> Read(regs, r) == 0)
  }

  /** The environment behind a block's phi nodes. */
  function EntryEnv(s: SsaForm, b: BlockId): Env
    requires b in s.blocks && b in s.envs
  {
    EnvAfterPhis(s.envs[b], s.blocks[b].phis)
  }

  lemma ArrivedMatches(s: SsaForm, b: BlockId, regs0: Regs, regs: Regs)
    requires b in s.blocks && b in s.envs && Distinct(PhiSymbols(s.blocks[b].phis)) && Arrived(s, b, regs0, regs)
    ensures Match(regs0, regs, EntryEnv(s, b))
  {
    hide EnvAfterPhis, Distinct, Read;
    var phis, env, env' := s.blocks[b].phis, s.envs[b], EntryEnv(s, b);
    PhiEnvKeys(env, phis);
    forall x | x in env' ensures Read(regs, Register(x, env'[x])) == Read(regs0, First(x)) {
      if x in PhiSymbols(phis) {
        var k :| 0 <= k < |phis| && PhiSymbols(phis)[k] == x;
        PhiVersion(env, phis, k);
      } else {
        PhisLeave(env, phis, x);
      }
    }
    forall x | First(x) in regs0 ensures x in env' {
    }
  }

  /** Entering a block through its phi nodes. */
  lemma EnterArrives(s: SsaForm, p: BlockId, b: BlockId, regs0: Regs, regs1: Regs)
    requires FormOk(s) && Edge(s.g, p, b) && p in s.blocks && p in s.envs && Match(regs0, regs1, OutOf(s, p))
    ensures b in s.blocks && b in s.envs && Distinct(PhiSymbols(s.blocks[b].phis))
    ensures Arrived(s, b, regs0, EnterPhis(s.blocks[b].phis, p, regs1))
  {
    hide FormOk, EnvOut, Distinct, Read, EnterPhis, Match;
    EdgeKnown(s, p, b);
    var phis := s.blocks[b].phis;
    var regs := EnterPhis(phis, p, regs1);
    forall k | 0 <= k < |phis| ensures Read(regs, phis[k].dest) == Read(regs0, First(phis[k].dest.symbol)) {
      EnterPhisAt(phis, p, regs1, k);
      PhiTakes(s, p, b, k, regs0, regs1);
    }
    forall x | x in s.envs[b] && x !in PhiSymbols(phis)
      ensures Read(regs, Register(x, s.envs[b][x])) == Read(regs0, First(x))
    {
      PlainVersion(s, p, b, regs0, regs1, x);
      EnterPhisElsewhere(phis, p, regs1, Register(x, s.envs[b][x]));
    }
    forall x | First(x) in regs0 ensures x in s.envs[b] || x in PhiSymbols(phis) {
      AssignedArrives(s, p, b, regs0, regs1, x);
    }
    forall r: Register | First(r.symbol) !in regs0 ensures Read(regs, r) == 0 {
      UnassignedStays(s, p, b, regs0, regs1, r);
    }
  }

  /** Without a phi node, the version on arrival is the one on departure. */
  lemma PlainVersion(s: SsaForm, p: BlockId, b: BlockId, regs0: Regs, regs1: Regs, x: Symbol)
    requires FormOk(s) && Edge(s.g, p, b) && p in s.blocks && p in s.envs && Match(regs0, regs1, OutOf(s, p))
    requires b in s.blocks && b in s.envs && x in s.envs[b] && x !in PhiSymbols(s.blocks[b].phis)
    ensures x in OutOf(s, p) && OutOf(s, p)[x] == s.envs[b][x]
    ensures Read(regs1, Register(x, s.envs[b][x])) == Read(regs0, First(x))
  {
    hide FormOk, EnvOut, Read;
    EdgeKeepsVersion(s, p, b, x);
  }

  lemma AssignedArrives(s: SsaForm, p: BlockId, b: BlockId, regs0: Regs, regs1: Regs, x: Symbol)
    requires FormOk(s) && Edge(s.g, p, b) && p in s.blocks && p in s.envs && Match(regs0, regs1, OutOf(s, p))
    requires b in s.blocks && b in s.envs && First(x) in regs0
    ensures x in s.envs[b] || x in PhiSymbols(s.blocks[b].phis)
  {
    hide FormOk, EnvOut, Read;
    EdgeKeepsVersion(s, p, b, x);
  }

  lemma EdgeKnown(s: SsaForm, p: BlockId, b: BlockId)
    requires FormOk(s) && Edge(s.g, p, b)
    ensures b in s.blocks && b in s.envs && b in s.raw && p in s.blocks && p in s.envs && p in s.raw
    ensures Distinct(PhiSymbols(s.blocks[b].phis)) && b in s.blocks[p].successors
  {
    EdgeFacts(s, p, b);
    BlockFacts(s, b);
    BlockFacts(s, p);
    hide PassAt, Distinct, Final, JoinsOk, FrontiersExact, PlacedFor, FlowsDown;
  }

  /** What a phi node takes on an edge is the value of its symbol. */
  lemma PhiTakes(s: SsaForm, p: BlockId, b: BlockId, k: nat, regs0: Regs, regs1: Regs)
    requires FormOk(s) && Edge(s.g, p, b) && p in s.blocks && p in s.envs && Match(regs0, regs1, OutOf(s, p))
    requires b in s.blocks && k < |s.blocks[b].phis|
    ensures var x := s.blocks[b].phis[k].dest.symbol;
            Read(regs0, First(x)) ==
            match SourceFrom(s.blocks[b].phis[k].sources, p) {
              case Some(r) => Read(regs1, r) case None => Read(regs1, s.blocks[b].phis[k].dest) }
  {
    EdgeKnown(s, p, b);
    hide FormOk, EnvOut, Distinct;
    var phi := s.blocks[b].phis[k];
    var x := phi.dest.symbol;
    match SourceFrom(phi.sources, p)
    case Some(r) => SourcesAre(s, b, k, p, r);
    case None =>
      if x in OutOf(s, p) {
        SourcesAre(s, b, k, p, Register(x, OutOf(s, p)[x]));
      }
  }

  lemma UnassignedStays(s: SsaForm, p: BlockId, b: BlockId, regs0: Regs, regs1: Regs, r: Register)
    requires FormOk(s) && Edge(s.g, p, b) && p in s.blocks && p in s.envs && Match(regs0, regs1, OutOf(s, p))
    requires b in s.blocks && First(r.symbol) !in regs0
    ensures Read(EnterPhis(s.blocks[b].phis, p, regs1), r) == 0
  {
    EdgeKnown(s, p, b);
    hide FormOk, EnvOut, EnterPhis;
    AllSources(s, p, b);
    EnterUnassigned(s.blocks[b].phis, p, regs0, regs1, r);
  }

  lemma AllSources(s: SsaForm, p: BlockId, b: BlockId)
    requires FormOk(s) && Edge(s.g, p, b)
    ensures b in s.blocks
    ensures forall k, r :: 0 <= k < |s.blocks[b].phis| && (p, r) in s.blocks[b].phis[k].sources ==>
              r.symbol == s.blocks[b].phis[k].dest.symbol
  {
    EdgeKnown(s, p, b);
    hide FormOk, EnvOut, Distinct;
    forall k, r | 0 <= k < |s.blocks[b].phis| && (p, r) in s.blocks[b].phis[k].sources
      ensures r.symbol == s.blocks[b].phis[k].dest.symbol
    {
      SourcesAre(s, b, k, p, r);
    }
  }

  lemma {:induction false} EnterUnassigned(phis: seq<Phi>, p: BlockId, regs0: Regs, regs1: Regs, r: Register)
    requires forall q: Register :: First(q.symbol) !in regs0 ==> Read(regs1, q) == 0
    requires forall k, q :: 0 <= k < |phis| && (p, q) in phis[k].sources ==> q.symbol == phis[k].dest.symbol
    requires First(r.symbol) !in regs0
    ensures Read(EnterPhis(phis, p, regs1), r) == 0
  {
    hide SourceFrom;
    if phis != [] {
      var n := |phis| - 1;
      EnterUnassigned(phis[..n], p, regs0, regs1, r);
    }
  }

  // ---------------------------------------------------------------------------
  // Copies instead of phi nodes
  // ---------------------------------------------------------------------------

  /** The copies a block was given. */
  function CopiesAt(s: SsaForm, elim: Blocks, p: BlockId): seq<Instruction>
    requires p in s.blocks && p in elim && |s.blocks[p].body| <= |elim[p].body|
  {
    elim[p].body[|s.blocks[p].body|..]
  }

  /** Each copy at the end of p copies the version of its symbol at the end of p. */
  ghost predicate CurrentCopies(copies: seq<Instruction>, out: Env) {
    forall c :: c in copies ==>
      && c.Copy? && c.source.Location? && c.dest.symbol in out
      && c.source.reg == Register(c.dest.symbol, out[c.dest.symbol])
  }

  lemma CopiesAreCurrent(s: SsaForm, elim: Blocks, p: BlockId)
    requires FormOk(s) && Eliminated(s.blocks, elim) && p in s.raw
    ensures p in s.blocks && p in s.envs && p in elim && |s.blocks[p].body| <= |elim[p].body|
    ensures elim[p] == s.blocks[p].(phis := [], body := s.blocks[p].body + CopiesAt(s, elim, p))
    ensures CurrentCopies(CopiesAt(s, elim, p), OutOf(s, p))
    ensures forall c :: c in CopiesAt(s, elim, p) <==> Owed(s.blocks, s.blocks.Keys, p, c)
  {
    hide FormOk, EnvOut, Owed;
    AllLinked(s);
    CopiesAppended(s.blocks, elim, p);
    forall c | c in CopiesAt(s, elim, p)
      ensures c.Copy? && c.source.Location? && c.dest.symbol in OutOf(s, p)
      ensures c.source.reg == Register(c.dest.symbol, OutOf(s, p)[c.dest.symbol])
    {
      OwedIsCurrent(s, p, c);
    }
  }

  lemma CopiesAppended(blocks: Blocks, elim: Blocks, p: BlockId)
    requires Eliminated(blocks, elim) && p in blocks
    ensures p in elim && |blocks[p].body| <= |elim[p].body|
    ensures var copies := elim[p].body[|blocks[p].body|..];
            && elim[p] == blocks[p].(phis := [], body := blocks[p].body + copies)
            && forall c :: c in copies <==> Owed(blocks, blocks.Keys, p, c)
  {
    hide Owed;
    assert EliminatedAt(blocks, elim[p], p);
  }

  lemma OwedIsCurrent(s: SsaForm, p: BlockId, c: Instruction)
    requires FormOk(s) && p in s.blocks && p in s.envs && Owed(s.blocks, s.blocks.Keys, p, c)
    ensures c.Copy? && c.source.Location? && c.dest.symbol in OutOf(s, p)
    ensures c.source.reg == Register(c.dest.symbol, OutOf(s, p)[c.dest.symbol])
  {
    AllLinked(s);
    hide FormOk, EnvOut;
    var b :| b in s.blocks.Keys && b in s.blocks && FromPhis(s.blocks[b].phis, p, c);
    var k :| 0 <= k < |s.blocks[b].phis| && FromPhi(s.blocks[b].phis[k], p, c);
    var r :| (p, r) in s.blocks[b].phis[k].sources && c == CopyOf(s.blocks[b].phis[k], r);
    SourcesAre(s, b, k, p, r);
  }

  lemma CurrentAreShared(copies: seq<Instruction>, out: Env)
    requires CurrentCopies(copies, out)
    ensures SourcesShared(copies)
  {
  }

  /** Copies of current versions leave every current version and every unassigned symbol alone. */
  lemma CopiesKeepMatch(copies: seq<Instruction>, out: Env, regs0: Regs, regs1: Regs, storage: Storage, call: Oracle)
    requires CurrentCopies(copies, out) && Match(regs0, regs1, out)
    ensures var (r, st) := ExecuteAll(copies, regs1, storage, call); st == storage && Match(regs0, r, out)
    ensures var (r, st) := ExecuteAll(copies, regs1, storage, call);
            forall c :: c in copies ==> Read(r, c.dest) == Read(regs0, First(c.dest.symbol))
  {
    hide ExecuteAll, Read;
    CurrentAreShared(copies, out);
    CopiesAreSimultaneous(copies, regs1, storage, call);
    var (r, st) := ExecuteAll(copies, regs1, storage, call);
    forall x | x in out ensures Read(r, Register(x, out[x])) == Read(regs0, First(x)) {
      if c :| c in copies && c.dest == Register(x, out[x]) {
        assert c.source.reg == Register(x, out[x]);
      }
    }
    forall q: Register | First(q.symbol) !in regs0 ensures Read(r, q) == 0 {
      if c :| c in copies && c.dest == q {
        assert c.source.reg.symbol == q.symbol;
      }
    }
  }

  /** Arriving in a block over copies is as good as arriving through its phi nodes. */
  lemma CopiesArrive(s: SsaForm, elim: Blocks, p: BlockId, b: BlockId, regs0: Regs, regs: Regs)
    requires FormOk(s) && Eliminated(s.blocks, elim) && Edge(s.g, p, b)
    requires p in s.blocks && p in s.envs && p in elim && |s.blocks[p].body| <= |elim[p].body|
    requires Match(regs0, regs, OutOf(s, p))
    requires forall c :: c in CopiesAt(s, elim, p) ==> Read(regs, c.dest) == Read(regs0, First(c.dest.symbol))
    ensures b in s.blocks && b in s.envs && Distinct(PhiSymbols(s.blocks[b].phis)) && Arrived(s, b, regs0, regs)
  {
    hide FormOk, EnvOut, Distinct, Read, Match, Eliminated, CopiesAt;
    EdgeKnown(s, p, b);
    forall k | 0 <= k < |s.blocks[b].phis|
      ensures Read(regs, s.blocks[b].phis[k].dest) == Read(regs0, First(s.blocks[b].phis[k].dest.symbol))
    {
      CopyOrUnassigned(s, elim, p, b, k, regs0, regs);
    }
    forall x | x in s.envs[b] && x !in PhiSymbols(s.blocks[b].phis)
      ensures Read(regs, Register(x, s.envs[b][x])) == Read(regs0, First(x))
    {
      PlainVersion(s, p, b, regs0, regs, x);
    }
    forall x | First(x) in regs0 ensures x in s.envs[b] || x in PhiSymbols(s.blocks[b].phis) {
      AssignedArrives(s, p, b, regs0, regs, x);
    }
    MatchUnassigned(regs0, regs, OutOf(s, p));
  }

  lemma MatchUnassigned(regs0: Regs, regs: Regs, env: Env)
    requires Match(regs0, regs, env)
    ensures forall r: Register :: First(r.symbol) !in regs0 ==> Read(regs, r) == 0
  {
    hide Read;
  }

  lemma CopyOrUnassigned(s: SsaForm, elim: Blocks, p: BlockId, b: BlockId, k: nat, regs0: Regs, regs: Regs)
    requires FormOk(s) && Eliminated(s.blocks, elim) && Edge(s.g, p, b) && b in s.blocks && k < |s.blocks[b].phis|
    requires p in s.blocks && p in s.envs && p in elim && |s.blocks[p].body| <= |elim[p].body|
    requires Match(regs0, regs, OutOf(s, p))
    requires forall c :: c in CopiesAt(s, elim, p) ==> Read(regs, c.dest) == Read(regs0, First(c.dest.symbol))
    ensures Read(regs, s.blocks[b].phis[k].dest) == Read(regs0, First(s.blocks[b].phis[k].dest.symbol))
  {
    hide FormOk, EnvOut, Distinct, Eliminated, CopiesAt;
    EdgeKnown(s, p, b);
    var phi := s.blocks[b].phis[k];
    var x := phi.dest.symbol;
    if x in OutOf(s, p) {
      var r := Register(x, OutOf(s, p)[x]);
      SourcesAre(s, b, k, p, r);
      CopiesAreCurrent(s, elim, p);
      assert FromPhi(phi, p, CopyOf(phi, r));
      assert FromPhis(s.blocks[b].phis, p, CopyOf(phi, r));
      assert CopyOf(phi, r) in CopiesAt(s, elim, p);
    }
  }

  // ---------------------------------------------------------------------------
  // Runs
  // ---------------------------------------------------------------------------

  /** Three runs in step: the function as built, renamed, and with copies for phi nodes. */
  ghost predicate InStep(s: SsaForm, s0: State, s1: State, s2: State) {
    match s0
    case At(b, regs0, storage) =>
      && s1.At? && s2.At? && s1.block == b && s2.block == b && s1.storage == storage && s2.storage == storage
      && b in s.raw && b in s.blocks && b in s.envs
      && Match(regs0, s1.regs, EntryEnv(s, b)) && Match(regs0, s2.regs, EntryEnv(s, b))
    case Done(_, _) => s1 == s0 && s2 == s0
    case Stuck => s1 == s0 && s2 == s0
  }

  lemma {:induction false} ExecuteAppend(
      a: seq<Instruction>, b: seq<Instruction>, regs: Regs, storage: Storage, call: Oracle)
    ensures var (r, st) := ExecuteAll(a, regs, storage, call);
            ExecuteAll(a + b, regs, storage, call) == ExecuteAll(b, r, st, call)
    decreases |b|
  {
    hide Execute;
    if b == [] {
      assert a + b == a;
    } else {
      var n := |b| - 1;
      assert (a + b)[..|a + b| - 1] == a + b[..n];
      ExecuteAppend(a, b[..n], regs, storage, call);
    }
  }

  /** The bodies of a block in the three functions, from matching registers. */
  lemma BodiesMatch(
      s: SsaForm, elim: Blocks, b: BlockId, regs0: Regs, regs1: Regs, regs2: Regs, storage: Storage, call: Oracle)
    requires FormOk(s) && Eliminated(s.blocks, elim) && Unversioned(s.raw) && b in s.raw && b in s.blocks && b in s.envs
    requires Match(regs0, regs1, EntryEnv(s, b)) && Match(regs0, regs2, EntryEnv(s, b))
    ensures b in elim && |s.blocks[b].body| <= |elim[b].body|
    ensures var (r0, t0) := ExecuteAll(s.raw[b].body, regs0, storage, call);
            var (r1, t1) := ExecuteAll(s.blocks[b].body, regs1, storage, call);
            var (r2, t2) := ExecuteAll(elim[b].body, regs2, storage, call);
            && t1 == t0 && t2 == t0 && Match(r0, r1, OutOf(s, b)) && Match(r0, r2, OutOf(s, b))
            && forall c :: c in CopiesAt(s, elim, b) ==> Read(r2, c.dest) == Read(r0, First(c.dest.symbol))
  {
    hide FormOk, Match, ExecuteAll, EnvAfterPhis, EnvAfterBody, UnversionedInstruction, Eliminated, CurrentCopies, Owed,
        Read;
    BlockFacts(s, b);
    RenamedParts(s.placed[b], s.blocks[b], s.envs[b]);
    BodyMatches(s.raw[b].body, s.blocks[b].body, EntryEnv(s, b), regs0, regs1, storage, call);
    BodyMatches(s.raw[b].body, s.blocks[b].body, EntryEnv(s, b), regs0, regs2, storage, call);
    CopiesAreCurrent(s, elim, b);
    var copies := CopiesAt(s, elim, b);
    ExecuteAppend(s.blocks[b].body, copies, regs2, storage, call);
    var (r0, t0) := ExecuteAll(s.raw[b].body, regs0, storage, call);
    var (r2, t2) := ExecuteAll(s.blocks[b].body, regs2, storage, call);
    CopiesKeepMatch(copies, OutOf(s, b), r0, r2, t2, call);
  }

  lemma RenamedParts(b0: Block, b1: Block, env: Env)
    requires BlockRenamed(b0, b1, env)
    ensures BodyRenamed(b0.body, b1.body, EnvAfterPhis(env, b1.phis))
    ensures RenameTerminator(b0.term, EnvOut(env, b1)) == Some(b1.term)
  {
  }

  /** Entering a successor keeps the three runs in step. */
  lemma EnterInStep(s: SsaForm, elim: Blocks, p: BlockId, b: BlockId, r0: Regs, r1: Regs, r2: Regs, storage: Storage)
    requires FormOk(s) && Eliminated(s.blocks, elim) && RawPhiFree(s) && Edge(s.g, p, b)
    requires p in s.blocks && p in s.envs && p in elim && |s.blocks[p].body| <= |elim[p].body|
    requires Match(r0, r1, OutOf(s, p)) && Match(r0, r2, OutOf(s, p))
    requires forall c :: c in CopiesAt(s, elim, p) ==> Read(r2, c.dest) == Read(r0, First(c.dest.symbol))
    ensures InStep(s, Enter(s.raw, b, p, r0, storage), Enter(s.blocks, b, p, r1, storage),
        Enter(elim, b, p, r2, storage))
  {
    hide FormOk, Match, EnterPhis, Arrived, EnvAfterPhis, EnvOut, Eliminated, Distinct, CopiesAt, Read;
    EdgeKnown(s, p, b);
    EnterArrives(s, p, b, r0, r1);
    ArrivedMatches(s, b, r0, EnterPhis(s.blocks[b].phis, p, r1));
    CopiesArrive(s, elim, p, b, r0, r2);
    ArrivedMatches(s, b, r0, r2);
    NoPhis(s, elim, b, p, r0, r2);
  }

  lemma NoPhis(s: SsaForm, elim: Blocks, b: BlockId, p: BlockId, r0: Regs, r2: Regs)
    requires FormOk(s) && Eliminated(s.blocks, elim) && b in s.raw && RawPhiFree(s)
    ensures b in elim && EnterPhis(s.raw[b].phis, p, r0) == r0 && EnterPhis(elim[b].phis, p, r2) == r2
  {
    hide FormOk;
    CopiesAreCurrent(s, elim, b);
  }

  /** The function as built has no phi nodes. */
  ghost predicate RawPhiFree(s: SsaForm) {
    forall b :: b in s.raw ==> s.raw[b].phis == []
  }

  lemma TermMatches(s: SsaForm, b: BlockId, r0: Regs, r: Regs, o: Operand, o': Operand)
    requires b in s.blocks && b in s.envs && Match(r0, r, OutOf(s, b))
    requires RenameOperand(o, OutOf(s, b)) == Some(o') && (o.Location? ==> o.reg.version == 0)
    ensures Value(r, o') == Value(r0, o)
  {
    hide EnvOut;
    OperandMatches(o, o', r0, r, OutOf(s, b));
  }

  lemma TargetIsEdge(s: SsaForm, b: BlockId, c: BlockId)
    requires FormOk(s) && JumpsAlongEdges(s.raw) && b in s.raw && c in Targets(s.raw[b].term)
    ensures Edge(s.g, b, c)
  {
    hide Final, JoinsOk, FrontiersExact, PlacedFor, PassAt, FlowsDown;
  }

  /** Finishing a block keeps the three runs in step. */
  lemma FinishInStep(s: SsaForm, elim: Blocks, b: BlockId, r0: Regs, r1: Regs, r2: Regs, storage: Storage)
    requires FormOk(s) && Eliminated(s.blocks, elim) && RawPhiFree(s) && JumpsAlongEdges(s.raw) && Unversioned(s.raw)
    requires b in s.raw && b in s.blocks && b in s.envs && b in elim && |s.blocks[b].body| <= |elim[b].body|
    requires Match(r0, r1, OutOf(s, b)) && Match(r0, r2, OutOf(s, b))
    requires forall c :: c in CopiesAt(s, elim, b) ==> Read(r2, c.dest) == Read(r0, First(c.dest.symbol))
    ensures InStep(s, Finish(s.raw, b, s.raw[b].term, r0, storage), Finish(s.blocks, b, s.blocks[b].term, r1, storage),
                   Finish(elim, b, elim[b].term, r2, storage))
  {
    hide FormOk, Match, EnvOut, Eliminated, Enter, CopiesAt, InStep, Read, Value, UnversionedInstruction,
        JumpsAlongEdges;
    TermRenamed(s, elim, b);
    var t, out := s.raw[b].term, OutOf(s, b);
    match t
    case Jump(target) =>
      TargetIsEdge(s, b, target);
      EnterInStep(s, elim, b, target, r0, r1, r2, storage);
    case Branch(condition, thenBlock, elseBlock) =>
      var c' := RenameOperand(condition, out).value;
      assert TerminatorOperands(t)[0] == condition;
      TermMatches(s, b, r0, r1, condition, c');
      TermMatches(s, b, r0, r2, condition, c');
      var target := if Value(r0, condition) != 0 then thenBlock else elseBlock;
      TargetIsEdge(s, b, target);
      EnterInStep(s, elim, b, target, r0, r1, r2, storage);
    case Return(Some(o)) =>
      var o' := RenameOperand(o, out).value;
      assert TerminatorOperands(t)[0] == o;
      TermMatches(s, b, r0, r1, o, o');
      TermMatches(s, b, r0, r2, o, o');
      OverInStep(s, Done(Some(Value(r0, o)), storage));
    case Return(None) => OverInStep(s, Done(None, storage));
    case Unreachable => OverInStep(s, Stuck);
  }

  lemma OverInStep(s: SsaForm, s0: State)
    requires !s0.At?
    ensures InStep(s, s0, s0, s0)
  {
  }

  lemma TermRenamed(s: SsaForm, elim: Blocks, b: BlockId)
    requires FormOk(s) && Eliminated(s.blocks, elim) && Unversioned(s.raw) && b in s.raw
    ensures b in s.blocks && b in s.envs && b in elim
    ensures RenameTerminator(s.raw[b].term, OutOf(s, b)) == Some(s.blocks[b].term) && elim[b].term == s.blocks[b].term
    ensures UnversionedOperands(TerminatorOperands(s.raw[b].term))
  {
    hide FormOk, EnvOut, RenameTerminator, UnversionedInstruction, UnversionedOperands, CurrentCopies, Owed, PhisAt;
    BlockFacts(s, b);
    CopiesAreCurrent(s, elim, b);
    RenamedParts(s.placed[b], s.blocks[b], s.envs[b]);
  }

  /** One block keeps the three runs in step. */
  lemma StepInStep(s: SsaForm, elim: Blocks, s0: State, s1: State, s2: State, call: Oracle)
    requires FormOk(s) && Eliminated(s.blocks, elim) && RawPhiFree(s) && JumpsAlongEdges(s.raw) && Unversioned(s.raw)
    requires InStep(s, s0, s1, s2)
    ensures InStep(s, StepBlock(s.raw, s0, call), StepBlock(s.blocks, s1, call), StepBlock(elim, s2, call))
  {
    hide FormOk, Match, EnvOut, Eliminated, Finish, CopiesAt, Read, ExecuteAll, EnvAfterPhis, JumpsAlongEdges,
        Unversioned, RawPhiFree;
    if s0.At? {
      var b := s0.block;
      BodiesMatch(s, elim, b, s0.regs, s1.regs, s2.regs, s0.storage, call);
      var (r0, t0) := ExecuteAll(s.raw[b].body, s0.regs, s0.storage, call);
      var (r1, t1) := ExecuteAll(s.blocks[b].body, s1.regs, s0.storage, call);
      var (r2, t2) := ExecuteAll(elim[b].body, s2.regs, s0.storage, call);
      FinishInStep(s, elim, b, r0, r1, r2, t0);
    }
  }

  /** The registers a function starts with: its parameters. */
  function ParameterRegs(parameters: seq<Symbol>, arguments: map<Symbol, Word>): Regs {
    map x: Symbol | x in parameters :: First(x) := if x in arguments then arguments[x] else 0
  }

  /** The entry needs no phi node, because nothing jumps to it. */
  lemma EntryHasNoPhis(s: SsaForm)
    requires FormOk(s)
    ensures s.g.entry in s.blocks && s.blocks[s.g.entry].phis == [] && s.g.entry in s.envs && s.g.entry in s.raw
    ensures s.envs[s.g.entry] == ParameterEnv(s.parameters)
  {
    hide FormOk, NeedsPhi, SitesOf, PhisGrew, BlockRenamed, Distinct;
    EntryKnown(s);
    var entry := s.g.entry;
    BlockFacts(s, entry);
    var phis := s.placed[entry].phis;
    assert |PhiSymbols(phis)| == |s.blocks[entry].phis|;
    if phis != [] {
      var x := phis[0].dest.symbol;
      assert PhiSymbols(phis)[0] == x;
      EntryNeedsNone(s, x);
      assert false;
    }
  }

  lemma EntryNeedsNone(s: SsaForm, x: Symbol)
    requires FormOk(s)
    ensures !NeedsPhi(s.df, SitesOf(s.raw, s.g.entry, s.parameters, x), s.g.entry)
  {
    hide FormOk, SitesOf;
    var sites := SitesOf(s.raw, s.g.entry, s.parameters, x);
    AllButEntryClosed(s, sites);
  }

  lemma EntryKnown(s: SsaForm)
    requires FormOk(s)
    ensures s.g.entry in s.raw && s.g.entry in s.blocks && s.g.entry in s.envs
    ensures s.envs[s.g.entry] == ParameterEnv(s.parameters)
  {
    hide Final, JoinsOk, FrontiersExact, PlacedFor, PassAt;
    AllLinked(s);
  }

  lemma AllButEntryClosed(s: SsaForm, sites: set<BlockId>)
    requires FormOk(s)
    ensures ClosedUnder(s.df, sites, s.df.Keys - {s.g.entry})
  {
    hide Final, PlacedFor, Pass, FlowsDown, DefinedIn, Dominates, Reaches;
    forall b, c | b in s.df && c in s.df[b] ensures c in s.df.Keys - {s.g.entry} {
      assert InFrontier(s.g, b, c);
      var p :| Edge(s.g, p, c) && Dominates(s.g, b, p);
      NothingEnters(s.g, p);
    }
  }

  lemma NothingEnters(g: Graph, p: Node)
    requires JoinsOk(g)
    ensures !Edge(g, p, g.entry)
  {
    hide Reaches;
  }

  lemma StartsInStep(s: SsaForm, arguments: map<Symbol, Word>, storage: Storage)
    requires FormOk(s)
    ensures var start := At(s.g.entry, ParameterRegs(s.parameters, arguments), storage); InStep(s, start, start, start)
  {
    EntryHasNoPhis(s);
    hide FormOk;
    StartMatches(s.parameters, arguments);
  }

  lemma StartMatches(parameters: seq<Symbol>, arguments: map<Symbol, Word>)
    ensures Match(ParameterRegs(parameters, arguments), ParameterRegs(parameters, arguments), ParameterEnv(parameters))
  {
    var regs := ParameterRegs(parameters, arguments);
    forall r | r in regs ensures First(r.symbol) in regs {
    }
  }

  /**
   * SSA construction and phi elimination preserve meaning: from any arguments and any
   * storage, after any number of blocks, the three functions are at the same
   * block with the same storage, or have returned the same value.
   */
  lemma {:induction false} SsaPreservesMeaning(
      s: SsaForm, elim: Blocks, arguments: map<Symbol, Word>, storage: Storage, n: nat, call: Oracle)
    requires FormOk(s) && Eliminated(s.blocks, elim) && RawPhiFree(s) && JumpsAlongEdges(s.raw) && Unversioned(s.raw)
    ensures var start := At(s.g.entry, ParameterRegs(s.parameters, arguments), storage);
            InStep(s, Steps(s.raw, start, n, call), Steps(s.blocks, start, n, call), Steps(elim, start, n, call))
  {
    hide FormOk, Eliminated, RawPhiFree, JumpsAlongEdges, Unversioned, InStep, StepBlock, ParameterRegs;
    var start := At(s.g.entry, ParameterRegs(s.parameters, arguments), storage);
    if n == 0 {
      StartsInStep(s, arguments, storage);
    } else {
      SsaPreservesMeaning(s, elim, arguments, storage, n - 1, call);
      StepInStep(s, elim, Steps(s.raw, start, n - 1, call), Steps(s.blocks, start, n - 1, call),
          Steps(elim, start, n - 1, call), call);
    }
  }
}
