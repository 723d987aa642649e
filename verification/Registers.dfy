/**
 * Every register that phi-free code reads is one that it defines: each current version
 * comes from a parameter, an instruction or a phi node, and every phi node has a
 * predecessor with a version to copy. So lowering never meets a register without a slot.
 */
module Registers {
  import opened Wrappers
  import opened Sequences
  import opened Graphs
  import opened Dominance
  import opened Frontier
  import opened Ssa
  import opened PhiPlacement
  import opened RenamingSpec
  import opened Renaming
  import opened RenamingWalk
  import opened RenamingMeaning
  import opened Definedness
  import opened PhiElim
  import opened SsaCorrect
  import opened SsaConstruction
  import opened Lowering

  // ---------------------------------------------------------------------------
  // Environments
  // ---------------------------------------------------------------------------

  function PlacementOf(s: SsaForm): Placement {
    Placement(s.g, s.t, s.df, s.raw, s.parameters, s.wanted, s.placed)
  }

  lemma FormPlacement(s: SsaForm)
    requires FormOk(s)
    ensures PlacementOk(PlacementOf(s)) && Rooted(s.t) && s.t.idom.Keys == s.raw.Keys && s.t.entry == s.g.entry
  {
    FormFinal(s);
    ExactTree(s.g, s.order, s.t);
    LinkedKeys(s);
    PlacementHolds(s);
  }

  lemma FormFinal(s: SsaForm)
    requires FormOk(s)
    ensures Final(s.g, s.order, s.t) && JoinsOk(s.g) && s.g == FlowGraph(s.raw, s.g.entry) && FrontiersExact(s.g, s.df)
    ensures PlacedFor(s.df, s.raw, s.g.entry, s.parameters, s.wanted, s.placed)
    ensures forall x, b :: DefinedIn(s.raw, s.g.entry, s.parameters, x, b) ==> x in s.wanted
  {
    hide Final, JoinsOk, FrontiersExact, PlacedFor, DefinedIn, Pass, FlowsDown;
  }

  lemma {:induction false} BodyEnvKeys(env: Env, body: seq<Instruction>)
    ensures EnvAfterBody(env, body).Keys == env.Keys + Assigned(body)
  {
    if body != [] {
      var n := |body| - 1;
      BodyEnvKeys(env, body[..n]);
      AssignedNext(body, n);
      assert body[..n + 1] == body;
    }
  }

  lemma OutKeys(env: Env, b: Block)
    ensures EnvOut(env, b).Keys == env.Keys + Defined(b)
  {
    hide Assigned;
    PhiEnvKeys(env, b.phis);
    BodyEnvKeys(EnvAfterPhis(env, b.phis), b.body);
  }

  lemma DefinedAsPlaced(s: SsaForm, b: BlockId)
    requires FormOk(s) && b in s.raw
    ensures b in s.blocks && b in s.placed && b in s.envs && Defined(s.blocks[b]) == Defined(s.placed[b])
    ensures PhiSymbols(s.blocks[b].phis) == PhiSymbols(s.placed[b].phis)
    ensures Defined(s.blocks[b]) == ToSet(PhiSymbols(s.blocks[b].phis)) + Assigned(s.raw[b].body)
  {
    hide FormOk, Assigned, PhisAt, PhisGrew, BlockRenamed, Distinct, ToSet;
    BlockFacts(s, b);
  }

  /** A block is entered with versions of the parameters and of what its strict dominators define. */
  lemma {:induction false} EnvIs(s: SsaForm, b: BlockId, x: Symbol)
    requires FormOk(s) && Rooted(s.t) && b in s.t.idom && b in s.raw
    ensures b in s.envs && (x in s.envs[b] <==> x in s.parameters || DefinedAbove(PlacementOf(s), b, x))
    decreases s.t.idx[b]
  {
    FormPlacement(s);
    DefinedAsPlaced(s, b);
    EntryKnown(s);
    Reached(PlacementOf(s), b);
    hide FormOk, Defined, PlacementOk, DefinedAbove;
    if b == s.t.entry {
      NothingAboveEntry(PlacementOf(s), x);
    } else {
      var d := LinkBelow(s, b);
      EnvIs(s, d, x);
      DefinedAsPlaced(s, d);
      Reached(PlacementOf(s), d);
      LinkEnv(s, b);
      OutKeys(s.envs[d], s.blocks[d]);
      AboveIsLinkOrAbove(PlacementOf(s), b, x);
    }
  }

  lemma LinkBelow(s: SsaForm, b: BlockId) returns (d: BlockId)
    requires FormOk(s) && Rooted(s.t) && b in s.t.idom && b != s.t.entry && s.t.idom.Keys == s.raw.Keys
    ensures d == s.t.idom[b] && d in s.t.idom && d in s.raw && s.t.idx[d] < s.t.idx[b]
    ensures s.envs.Keys == s.t.idom.Keys && s.blocks.Keys == s.t.idom.Keys
  {
    d := s.t.idom[b];
    AllLinked(s);
    hide FormOk;
  }

  /** What has a version by placement has one in the environment. */
  lemma VersionInEnv(s: SsaForm, b: BlockId, x: Symbol)
    requires FormOk(s) && b in s.raw && b in s.placed && HasVersion(PlacementOf(s), b, x)
    ensures b in s.blocks && b in s.envs && x in EntryEnv(s, b)
  {
    FormPlacement(s);
    DefinedAsPlaced(s, b);
    EnvIs(s, b, x);
    hide FormOk, DefinedAbove, PlacementOk;
    PhiEnvKeys(s.envs[b], s.blocks[b].phis);
  }

  lemma VersionAtEnd(s: SsaForm, b: BlockId, x: Symbol)
    requires FormOk(s) && b in s.raw && b in s.placed
    requires HasVersion(PlacementOf(s), b, x) || x in Assigned(s.raw[b].body)
    ensures b in s.blocks && b in s.envs && x in OutOf(s, b)
  {
    DefinedAsPlaced(s, b);
    if HasVersion(PlacementOf(s), b, x) {
      VersionInEnv(s, b, x);
    }
    hide FormOk, HasVersion, Assigned, EnvOut;
    OutKeys(s.envs[b], s.blocks[b]);
    PhiEnvKeys(s.envs[b], s.blocks[b].phis);
  }

  // ---------------------------------------------------------------------------
  // Every phi node has a copy
  // ---------------------------------------------------------------------------

  lemma LastEdge(g: Graph, a: Node, b: Node) returns (p: Node)
    requires WellLinked(g) && LeadsTo(g, a, b)
    ensures Edge(g, p, b) && (p == a || LeadsTo(g, a, p))
  {
    var c :| Edge(g, a, c) && Reaches(g, c, b);
    var q :| PathBetween(g, q, c, b);
    if |q| == 1 {
      p := a;
    } else {
      p := q[|q| - 2];
      var r := q[..|q| - 1];
      assert forall i :: 0 <= i < |r| - 1 ==> Edge(g, q[i], q[i + 1]);
      assert PathBetween(g, r, c, p);
    }
  }

  /** Some predecessor ends with a version of the phi node's symbol. */
  lemma PhiHasSource(s: SsaForm, b: BlockId, k: nat) returns (p: BlockId)
    requires FormOk(s) && b in s.raw && b in s.blocks && k < |s.blocks[b].phis|
    ensures Edge(s.g, p, b) && p in s.raw && p in s.blocks && p in s.envs
    ensures s.blocks[b].phis[k].dest.symbol in OutOf(s, p)
  {
    hide FormOk, PlacementOk, HasVersion, AssignedBefore, EnvOut, Defined, Rooted, Assigned, WellLinked, Reaches;
    FormPlacement(s);
    DefinedAsPlaced(s, b);
    var x := s.blocks[b].phis[k].dest.symbol;
    assert PhiSymbols(s.blocks[b].phis)[k] == x;
    Reached(PlacementOf(s), b);
    if x in s.parameters {
      NotTheEntry(s, b, k);
      p := SomePredecessor(s.g, b);
      EdgeInside(PlacementOf(s), p, b);
      assert HasVersion(PlacementOf(s), p, x) by { ParameterHasVersion(PlacementOf(s), p, x); }
    } else {
      PhiIsAhead(PlacementOf(s), b, x);
      p := LastAssigned(s, b, x);
    }
    VersionAtEnd(s, p, x);
  }

  lemma ParameterHasVersion(s: Placement, p: BlockId, x: Symbol)
    requires p in s.placed && x in s.parameters
    ensures HasVersion(s, p, x)
  {
  }

  lemma NotTheEntry(s: SsaForm, b: BlockId, k: nat)
    requires FormOk(s) && b in s.blocks && k < |s.blocks[b].phis|
    ensures b != s.g.entry
  {
    EntryHasNoPhis(s);
    hide FormOk;
  }

  lemma SomePredecessor(g: Graph, b: Node) returns (p: Node)
    requires Reaches(g, g.entry, b) && b != g.entry
    ensures Edge(g, p, b)
  {
    var q :| PathBetween(g, q, g.entry, b);
    p := q[|q| - 2];
    assert Edge(g, q[|q| - 2], q[|q| - 2 + 1]);
  }

  lemma LastAssigned(s: SsaForm, b: BlockId, x: Symbol) returns (p: BlockId)
    requires FormOk(s) && PlacementOk(PlacementOf(s)) && WellLinked(s.g) && AssignedBefore(s.g, s.raw, b, x)
    ensures Edge(s.g, p, b) && p in s.raw && p in s.placed
    ensures HasVersion(PlacementOf(s), p, x) || x in Assigned(s.raw[p].body)
  {
    hide FormOk, PlacementOk, HasVersion, LeadsTo, Assigned, WellLinked;
    var d :| d in s.raw && x in Assigned(s.raw[d].body) && LeadsTo(s.g, d, b);
    p := LastEdge(s.g, d, b);
    EdgeInside(PlacementOf(s), p, b);
    if p != d {
      AssignedHasVersion(PlacementOf(s), p, x);
    }
  }

  ghost function Known(s: SsaForm, elim: Blocks): set<Register> {
    RegistersOf(elim, s.parameters)
  }

  lemma DestinationKnown(s: SsaForm, elim: Blocks, b: BlockId, i: nat)
    requires b in elim && i < |elim[b].body| && DestRegister(elim[b].body[i]).Some?
    ensures DestRegister(elim[b].body[i]).value in Known(s, elim)
  {
    assert DestRegister(elim[b].body[i]).value in Destinations(elim[b].body);
  }

  /** The destination of a phi node is that of a copy. */
  lemma PhiKnown(s: SsaForm, elim: Blocks, b: BlockId, k: nat)
    requires FormOk(s) && Eliminated(s.blocks, elim) && b in s.raw && b in s.blocks && k < |s.blocks[b].phis|
    ensures s.blocks[b].phis[k].dest in Known(s, elim)
  {
    hide FormOk, Eliminated, EnvOut, Known, CopiesAt, CurrentCopies, Owed;
    var p := PhiHasSource(s, b, k);
    EdgeKnown(s, p, b);
    var phi := s.blocks[b].phis[k];
    var r := Register(phi.dest.symbol, OutOf(s, p)[phi.dest.symbol]);
    SourcesAre(s, b, k, p, r);
    CopiesAreCurrent(s, elim, p);
    CopyIsOwed(s, b, k, p, r);
    var copies := CopiesAt(s, elim, p);
    var i :| 0 <= i < |copies| && copies[i] == CopyOf(phi, r);
    var at := |s.blocks[p].body| + i;
    assert elim[p].body[at] == copies[i];
    DestinationKnown(s, elim, p, at);
  }

  lemma CopyIsOwed(s: SsaForm, b: BlockId, k: nat, p: BlockId, r: Register)
    requires b in s.blocks && k < |s.blocks[b].phis| && (p, r) in s.blocks[b].phis[k].sources
    ensures Owed(s.blocks, s.blocks.Keys, p, CopyOf(s.blocks[b].phis[k], r))
  {
    assert FromPhi(s.blocks[b].phis[k], p, CopyOf(s.blocks[b].phis[k], r));
    assert FromPhis(s.blocks[b].phis, p, CopyOf(s.blocks[b].phis[k], r));
  }

  // ---------------------------------------------------------------------------
  // Every version is a register of the function
  // ---------------------------------------------------------------------------

  ghost predicate EnvKnown(env: Env, known: set<Register>) {
    forall x :: x in env ==> Register(x, env[x]) in known
  }

  lemma {:induction false} PhisKnown(env: Env, phis: seq<Phi>, known: set<Register>)
    requires EnvKnown(env, known) && forall k :: 0 <= k < |phis| ==> phis[k].dest in known
    ensures EnvKnown(EnvAfterPhis(env, phis), known)
  {
    if phis != [] {
      PhisKnown(env, phis[..|phis| - 1], known);
    }
  }

  lemma {:induction false} BodyKnown(env: Env, body: seq<Instruction>, known: set<Register>)
    requires EnvKnown(env, known)
    requires forall i :: 0 <= i < |body| && DestRegister(body[i]).Some? ==> DestRegister(body[i]).value in known
    ensures EnvKnown(EnvAfterBody(env, body), known)
  {
    hide DestRegister;
    if body != [] {
      BodyKnown(env, body[..|body| - 1], known);
    }
  }

  /** From the start of a block to behind its first n instructions. */
  lemma InsideKnown(s: SsaForm, elim: Blocks, b: BlockId, n: nat)
    requires FormOk(s) && Eliminated(s.blocks, elim) && b in s.raw && b in s.blocks && b in s.envs
    requires EnvKnown(s.envs[b], Known(s, elim)) && n <= |s.blocks[b].body|
    ensures EnvKnown(EntryEnv(s, b), Known(s, elim))
    ensures EnvKnown(EnvAfterBody(EntryEnv(s, b), s.blocks[b].body[..n]), Known(s, elim))
  {
    hide FormOk, Eliminated, EnvKnown, Known, DestRegister, EnvAfterPhis, EnvAfterBody, CopiesAt, CurrentCopies, Owed;
    forall k | 0 <= k < |s.blocks[b].phis| ensures s.blocks[b].phis[k].dest in Known(s, elim) {
      PhiKnown(s, elim, b, k);
    }
    PhisKnown(s.envs[b], s.blocks[b].phis, Known(s, elim));
    CopiesAreCurrent(s, elim, b);
    var body := s.blocks[b].body[..n];
    forall i | 0 <= i < |body| && DestRegister(body[i]).Some? ensures DestRegister(body[i]).value in Known(s, elim) {
      assert elim[b].body[i] == body[i];
      DestinationKnown(s, elim, b, i);
    }
    BodyKnown(EntryEnv(s, b), body, Known(s, elim));
  }

  lemma {:induction false} EntryEnvKnown(s: SsaForm, elim: Blocks, b: BlockId)
    requires FormOk(s) && Eliminated(s.blocks, elim) && Rooted(s.t) && b in s.t.idom && b in s.raw
    requires s.t.idom.Keys == s.raw.Keys && s.t.entry == s.g.entry
    ensures b in s.envs && b in s.blocks && EnvKnown(s.envs[b], Known(s, elim))
    decreases s.t.idx[b]
  {
    hide FormOk, Eliminated, EnvOut, EnvAfterBody, EnvAfterPhis, EnvKnown, Known, Defined, Assigned, ParameterEnv;
    DefinedAsPlaced(s, b);
    EntryKnown(s);
    if b == s.t.entry {
      ParametersKnown(s, elim);
    } else {
      var d := LinkBelow(s, b);
      EntryEnvKnown(s, elim, d);
      LinkEnv(s, b);
      InsideKnown(s, elim, d, |s.blocks[d].body|);
      assert s.blocks[d].body[..|s.blocks[d].body|] == s.blocks[d].body;
      assert OutOf(s, d) == EnvAfterBody(EntryEnv(s, d), s.blocks[d].body) by { OutIs(s, d); }
    }
  }

  lemma OutIs(s: SsaForm, d: BlockId)
    requires d in s.blocks && d in s.envs
    ensures OutOf(s, d) == EnvAfterBody(EntryEnv(s, d), s.blocks[d].body)
  {
  }

  lemma ParametersKnown(s: SsaForm, elim: Blocks)
    ensures EnvKnown(ParameterEnv(s.parameters), Known(s, elim))
  {
    forall x | x in ParameterEnv(s.parameters) ensures Register(x, 0) in Known(s, elim) {
      assert First(x) in ParameterRegisters(s.parameters);
    }
  }

  // ---------------------------------------------------------------------------
  // Lowering finds every register
  // ---------------------------------------------------------------------------

  ghost predicate OperandsKnown(os: seq<Operand>, known: set<Register>) {
    forall k :: 0 <= k < |os| && os[k].Location? ==> os[k].reg in known
  }

  lemma RenamedKnown(os: seq<Operand>, os': seq<Operand>, env: Env, known: set<Register>)
    requires RenameOperands(os, env) == Some(os') && EnvKnown(env, known)
    ensures OperandsKnown(os', known)
  {
    forall k | 0 <= k < |os'| && os'[k].Location? ensures os'[k].reg in known {
      assert RenameOperand(os[k], env) == Some(os'[k]);
    }
  }

  /** The operands of an instruction of phi-free code are registers of the function. */
  lemma InstructionKnown(s: SsaForm, elim: Blocks, b: BlockId, i: nat)
    requires FormOk(s) && Eliminated(s.blocks, elim) && b in s.raw && b in elim && i < |elim[b].body|
    ensures OperandsKnown(Operands(elim[b].body[i]), Known(s, elim))
  {
    hide FormOk, PlacementOk, Eliminated, EnvKnown, Known, EnvAfterBody, EnvAfterPhis, Rebuilt, RenameOperands, Owed;
    hide PhisAt, PhisGrew, BlockRenamed, OperandsKnown, Rooted, Defined, Assigned, Distinct, CurrentCopies, Operands;
    FormPlacement(s);
    EntryEnvKnown(s, elim, b);
    CopiesAreCurrent(s, elim, b);
    RenamedAt(s, b);
    var body := s.blocks[b].body;
    if i < |body| {
      InsideKnown(s, elim, b, i);
      assert elim[b].body[i] == body[i];
      var env := EnvAfterBody(EntryEnv(s, b), body[..i]);
      var inst := s.raw[b].body[i];
      assert RenameInstruction(inst, env, VersionOf(body[i])) == Some(body[i]);
      var os := RenameOperands(Operands(inst), env).value;
      RebuiltOperands(inst, os, VersionOf(body[i]));
      RenamedKnown(Operands(inst), os, env, Known(s, elim));
    } else {
      InsideKnown(s, elim, b, |body|);
      assert body[..|body|] == body;
      OutIs(s, b);
      var c := CopiesAt(s, elim, b)[i - |body|];
      assert elim[b].body[i] == c && c in CopiesAt(s, elim, b);
      CurrentCopy(CopiesAt(s, elim, b), OutOf(s, b), c);
      CopyKnown(c, OutOf(s, b), Known(s, elim));
    }
  }

  lemma RenamedAt(s: SsaForm, b: BlockId)
    requires FormOk(s) && b in s.raw
    ensures b in s.blocks && b in s.envs && BodyRenamed(s.raw[b].body, s.blocks[b].body, EntryEnv(s, b))
  {
    hide FormOk, BodyRenamed, EnvAfterPhis, PhisAt, PhisGrew, Defined, Distinct;
    BlockFacts(s, b);
    RenamedParts(s.placed[b], s.blocks[b], s.envs[b]);
  }

  lemma CurrentCopy(copies: seq<Instruction>, out: Env, c: Instruction)
    requires CurrentCopies(copies, out) && c in copies
    ensures c.Copy? && c.source.Location? && c.dest.symbol in out
    ensures c.source.reg == Register(c.dest.symbol, out[c.dest.symbol])
  {
  }

  lemma CopyKnown(c: Instruction, out: Env, known: set<Register>)
    requires EnvKnown(out, known) && c.Copy? && c.source.Location? && c.dest.symbol in out
    requires c.source.reg == Register(c.dest.symbol, out[c.dest.symbol])
    ensures OperandsKnown(Operands(c), known)
  {
  }

  lemma RebuiltOperands(inst: Instruction, os: seq<Operand>, v: nat)
    requires |os| == |Operands(inst)|
    ensures Operands(Rebuilt(inst, os, v)) == os
  {
  }

  lemma TerminatorKnown(s: SsaForm, elim: Blocks, b: BlockId)
    requires FormOk(s) && Eliminated(s.blocks, elim) && Unversioned(s.raw) && b in s.raw && b in elim
    ensures OperandsKnown(TerminatorOperands(elim[b].term), Known(s, elim))
  {
    hide FormOk, PlacementOk, Eliminated, Known, EnvOut, Unversioned, EnvKnown, EnvAfterBody, EnvAfterPhis, Rooted;
    hide OperandsKnown, UnversionedOperands, RenameTerminator;
    FormPlacement(s);
    EntryEnvKnown(s, elim, b);
    TermRenamed(s, elim, b);
    InsideKnown(s, elim, b, |s.blocks[b].body|);
    assert s.blocks[b].body[..|s.blocks[b].body|] == s.blocks[b].body;
    OutIs(s, b);
    RenamedTerminatorKnown(s.raw[b].term, elim[b].term, OutOf(s, b), Known(s, elim));
  }

  lemma RenamedTerminatorKnown(t: Terminator, t': Terminator, env: Env, known: set<Register>)
    requires RenameTerminator(t, env) == Some(t') && EnvKnown(env, known)
    ensures OperandsKnown(TerminatorOperands(t'), known)
  {
  }

  /** The storage variables that a body touches have keys. */
  predicate KeysCoverBody(body: seq<Instruction>, keys: StorageKeys) {
    forall i :: 0 <= i < |body| && (body[i].StorageLoad? || body[i].StorageStore?) ==> body[i].storageVar in keys
  }

  predicate KeysCover(blocks: Blocks, keys: StorageKeys) {
    forall b :: b in blocks ==> KeysCoverBody(blocks[b].body, keys)
  }

  lemma {:induction false} OperandsLower(os: seq<Operand>, m: RegisterMap)
    requires OperandsKnown(os, m.Keys)
    ensures LowerOperands(os, m).Ok?
    decreases |os|
  {
    if os != [] {
      OperandsLower(os[..|os| - 1], m);
    }
  }

  lemma InstructionLowers(inst: Instruction, m: RegisterMap, keys: StorageKeys)
    requires OperandsKnown(Operands(inst), m.Keys) && (DestRegister(inst).Some? ==> DestRegister(inst).value in m)
    ensures var r := LowerInstruction(inst, m, keys);
            if (inst.StorageLoad? || inst.StorageStore?)
                && inst.storageVar !in keys then r == Err(MissingStorageKey) else r.Ok?
  {
    var os := Operands(inst);
    assert forall k :: 0 <= k < |os| ==> LowerOperand(os[k], m).Ok?;
    match inst
    case Copy(_, source) => assert source == os[0];
    case BinaryOp(_, _, left, right) => assert left == os[0] && right == os[1];
    case UnaryOp(_, _, operand) => assert operand == os[0];
    case StorageStore(_, value) => assert value == os[0];
    case Call(_, _, args) => OperandsLower(args, m);
    case StorageLoad(_, _) =>
    case Fold(_) =>
    case Unfold(_) =>
    case Assert(_) =>
  }

  lemma {:induction false} BodyLowers(body: seq<Instruction>, m: RegisterMap, keys: StorageKeys)
    requires forall i :: 0 <= i < |body| ==> OperandsKnown(Operands(body[i]), m.Keys)
    requires Destinations(body) <= m.Keys
    ensures var r := LowerBody(body, m, keys);
            if KeysCoverBody(body, keys) then r.Ok? else r == Err(MissingStorageKey)
    decreases |body|
  {
    hide LowerInstruction, OperandsKnown, Operands, DestRegister;
    if body != [] {
      var n := |body| - 1;
      assert Destinations(body[..n]) <= m.Keys by { DestinationsNext(body, n); assert body[..n + 1] == body; }
      BodyLowers(body[..n], m, keys);
      assert DestRegister(body[n]).Some? ==> DestRegister(body[n]).value in Destinations(body);
      InstructionLowers(body[n], m, keys);
      CoverNext(body, keys);
    }
  }

  lemma CoverNext(body: seq<Instruction>, keys: StorageKeys)
    requires body != []
    ensures var last := body[|body| - 1];
            KeysCoverBody(body, keys) <==>
              && KeysCoverBody(body[..|body| - 1], keys)
              && (last.StorageLoad? || last.StorageStore? ==> last.storageVar in keys)
  {
    var init := body[..|body| - 1];
    assert forall i :: 0 <= i < |init| ==> init[i] == body[i];
  }

  lemma TerminatorLowers(t: Terminator, m: RegisterMap)
    requires OperandsKnown(TerminatorOperands(t), m.Keys)
    ensures LowerTerminator(t, m).Ok?
  {
    match t
    case Branch(c, _, _) => assert TerminatorOperands(t)[0] == c;
    case Return(Some(o)) => assert TerminatorOperands(t)[0] == o;
    case _ =>
  }

  /** A block lowers unless storage lacks a variable of it. */
  lemma BlockLowers(s: SsaForm, elim: Blocks, b: BlockId, m: RegisterMap, keys: StorageKeys)
    requires FormOk(s) && Eliminated(s.blocks, elim) && Unversioned(s.raw) && b in s.raw && b in elim
    requires m.Keys == Known(s, elim)
    ensures if KeysCoverBody(elim[b].body, keys) then LowerBlock(elim[b], m, keys).Ok?
            else LowerBlock(elim[b], m, keys) == Err(MissingStorageKey)
  {
    hide FormOk, Eliminated, Unversioned, Known, OperandsKnown, KeysCoverBody, Destinations, LowerBody, LowerTerminator;
    TerminatorKnown(s, elim, b);
    forall i | 0 <= i < |elim[b].body| ensures OperandsKnown(Operands(elim[b].body[i]), m.Keys) {
      InstructionKnown(s, elim, b, i);
    }
    BlockDestinations(s, elim, b);
    BodyLowers(elim[b].body, m, keys);
    TerminatorLowers(elim[b].term, m);
  }

  lemma BlockDestinations(s: SsaForm, elim: Blocks, b: BlockId)
    requires b in elim
    ensures Destinations(elim[b].body) <= Known(s, elim)
  {
    hide Destinations;
  }

  /** The phi-free code touches the storage variables that the code as built does. */
  lemma SameVariables(s: SsaForm, elim: Blocks, b: BlockId, keys: StorageKeys)
    requires FormOk(s) && Eliminated(s.blocks, elim) && b in s.raw && b in elim
    ensures KeysCoverBody(elim[b].body, keys) <==> KeysCoverBody(s.raw[b].body, keys)
  {
    hide FormOk, Eliminated, Owed, EnvAfterBody, EnvAfterPhis, BodyRenamed, KeysCoverBody, EnvOut;
    CopiesAreCurrent(s, elim, b);
    RenamedAt(s, b);
    var raw, body := s.raw[b].body, s.blocks[b].body;
    SameKinds(raw, body, EntryEnv(s, b));
    CoverAppended(body, CopiesAt(s, elim, b), keys);
    SameCover(raw, body, keys);
  }

  lemma SameKinds(raw: seq<Instruction>, body: seq<Instruction>, env: Env)
    requires BodyRenamed(raw, body, env)
    ensures |raw| == |body|
    ensures forall i :: 0 <= i < |raw| ==>
              && body[i].StorageLoad? == raw[i].StorageLoad? && body[i].StorageStore? == raw[i].StorageStore?
              && (raw[i].StorageLoad? || raw[i].StorageStore? ==> body[i].storageVar == raw[i].storageVar)
  {
    hide EnvAfterBody, RenameOperands;
    forall i | 0 <= i < |raw|
      ensures body[i].StorageLoad? == raw[i].StorageLoad? && body[i].StorageStore? == raw[i].StorageStore?
      ensures raw[i].StorageLoad? || raw[i].StorageStore? ==> body[i].storageVar == raw[i].storageVar
    {
      assert RenameInstruction(raw[i], EnvAfterBody(env, body[..i]), VersionOf(body[i])) == Some(body[i]);
    }
  }

  lemma CoverAppended(body: seq<Instruction>, copies: seq<Instruction>, keys: StorageKeys)
    requires forall c :: c in copies ==> c.Copy?
    ensures KeysCoverBody(body + copies, keys) <==> KeysCoverBody(body, keys)
  {
    var all := body + copies;
    forall i | 0 <= i < |all| ensures (i < |body| && all[i] == body[i]) || all[i].Copy? {
      if i >= |body| {
        assert all[i] == copies[i - |body|];
      }
    }
    if KeysCoverBody(all, keys) {
      assert forall i :: 0 <= i < |body| ==> body[i] == all[i];
    }
  }

  lemma SameCover(a: seq<Instruction>, b: seq<Instruction>, keys: StorageKeys)
    requires |a| == |b|
    requires forall i :: 0 <= i < |a| ==>
               && b[i].StorageLoad? == a[i].StorageLoad? && b[i].StorageStore? == a[i].StorageStore?
               && (a[i].StorageLoad? || a[i].StorageStore? ==> b[i].storageVar == a[i].storageVar)
    ensures KeysCoverBody(a, keys) <==> KeysCoverBody(b, keys)
  {
  }
}
