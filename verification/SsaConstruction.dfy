/**
 * SSA construction as a whole (ir/src/ssa_ir.rs): dominators, frontiers, phi placement
 * and renaming, one after the other on the function's blocks.
 */
module SsaConstruction {
  import opened Wrappers
  import opened Sequences
  import opened Words
  import opened Graphs
  import opened Traversal
  import opened Dominance
  import opened Frontier
  import opened Ssa
  import opened PhiPlacement
  import opened RenamingSpec
  import opened Renaming
  import opened RenamingWalk
  import opened RenamingMeaning
  import opened Definedness
  import opened SsaSemantics
  import opened PhiElim
  import opened SsaCorrect

  /** A function as it is built: well linked, every block reachable, nothing jumps to the entry, no phi nodes yet. */
  ghost predicate AsBuilt(blocks: Blocks, entry: BlockId, parameters: seq<Symbol>) {
    && JoinsOk(FlowGraph(blocks, entry)) && Distinct(parameters)
    && (forall b :: b in blocks ==> blocks[b].phis == [] && Distinct(blocks[b].successors))
    && JumpsAlongEdges(blocks) && Unversioned(blocks)
  }

  lemma BuiltFacts(blocks: Blocks, entry: BlockId, parameters: seq<Symbol>)
    requires AsBuilt(blocks, entry, parameters)
    ensures WellLinked(FlowGraph(blocks, entry)) && JoinsOk(FlowGraph(blocks, entry)) && Distinct(parameters)
    ensures entry in blocks && FlowGraph(blocks, entry).succ.Keys == blocks.Keys
    ensures forall b :: b in blocks ==> blocks[b].phis == []
  {
    hide Reaches, Unversioned, JumpsAlongEdges;
  }

  /** Placing phi nodes leaves the graph as it was. */
  lemma PlacedGraph(
      df: Frontiers, raw: Blocks, entry: BlockId, parameters: seq<Symbol>, wanted: set<Symbol>, placed: Blocks)
    requires PlacedFor(df, raw, entry, parameters, wanted, placed)
    ensures FlowGraph(placed, entry) == FlowGraph(raw, entry)
  {
    hide PhisAt;
    forall b | b in raw
      ensures placed[b].successors == raw[b].successors && placed[b].predecessors == raw[b].predecessors
    {
    }
  }

  lemma PlacedSuccessors(
      df: Frontiers, raw: Blocks, entry: BlockId, parameters: seq<Symbol>, wanted: set<Symbol>, placed: Blocks)
    requires AsBuilt(raw, entry, parameters) && PlacedFor(df, raw, entry, parameters, wanted, placed)
    ensures SuccessorsOk(placed)
  {
    hide PhisAt, Reaches, Unversioned, JumpsAlongEdges, Distinct;
    forall b | b in placed
      ensures Distinct(placed[b].successors) && forall c :: c in placed[b].successors ==> c in placed
    {
      assert placed[b].successors == raw[b].successors;
      forall c | c in raw[b].successors ensures c in raw {
        assert Edge(FlowGraph(raw, entry), b, c);
      }
    }
  }

  /** No register is defined twice: not by two instructions or phi nodes, and not by one of them and a parameter. */
  ghost predicate EveryRegisterOnce(blocks: Blocks, parameters: seq<Symbol>) {
    && (forall b :: b in blocks ==> Distinct(Dests(blocks[b])))
    && (forall b, c :: b in blocks && c in blocks && b != c ==> ToSet(Dests(blocks[b])) !! ToSet(Dests(blocks[c])))
    && (forall b, x :: b in blocks && x in parameters ==> First(x) !in Dests(blocks[b]))
  }

  lemma SingleAssignmentHolds(
      t: Links, parameters: seq<Symbol>, blocks0: Blocks, blocks1: Blocks, envs: map<BlockId, Env>, c0: Counters,
      c1: Counters)
    requires RenamedFunction(t, parameters, blocks0, blocks1, envs, c0, c1) && envs.Keys == blocks1.Keys
    ensures EveryRegisterOnce(blocks1, parameters)
  {
    hide Pass, FlowsDown, Dests, Distinct;
    assert SingleAssignment(blocks1, envs.Keys, c0, c1);
    forall b, x | b in blocks1 && x in parameters ensures First(x) !in Dests(blocks1[b]) {
      assert !Between(c0, c1, First(x));
    }
  }

  /**
   * From a function as built to SSA form. It fails exactly when some block reads a
   * symbol before it assigns it, the symbol is no parameter, and no path leads from
   * an assignment of it to the block. Otherwise no register is defined twice, and
   * what comes out is in the form whose meaning is preserved.
   */
  method ConstructSsa(f: SsaFunction) returns (ok: bool, ghost s: SsaForm)
    requires AsBuilt(f.blocks, f.entry, f.parameters)
    modifies f`blocks
    ensures s.raw == old(f.blocks) && s.g.entry == f.entry && s.parameters == f.parameters
    ensures ok ==> s.blocks == f.blocks && FormOk(s) && EveryRegisterOnce(f.blocks, f.parameters)
    ensures ok <==> ReadsReached(old(f.blocks), f.entry, f.parameters)
  {
    hide AsBuilt, WellLinked, JoinsOk, Final, Rooted, PlacedFor, Walked, ReadsDefined, FlowGraph, SuccessorsOk,
        InFrontier,
      DefinedIn, FormOk, EveryRegisterOnce, Distinct, ToSet, TreeIsExact, ReadsReached, PlacementOk;
    ghost var raw := f.blocks;
    BuiltFacts(raw, f.entry, f.parameters);
    var g := GraphOf(f.blocks, f.entry);
    var t, order := ComputeDominance(g);
    var df := ComputeDominanceFrontiers(g, t, order);
    FrontiersInside(g, df);
    f.PhiNodesPlacement(df);
    ghost var placed := f.blocks;
    ghost var wanted: set<Symbol> :| PlacedFor(df, raw, f.entry, f.parameters, wanted, placed)
      && forall x, b :: DefinedIn(raw, f.entry, f.parameters, x, b) ==> x in wanted;
    PlacedGraph(df, raw, f.entry, f.parameters, wanted, placed);
    PlacedSuccessors(df, raw, f.entry, f.parameters, wanted, placed);
    ghost var envs, c0, c1;
    ok, envs, c0, c1 := SsaVariableRenaming(f, t, order);
    s := SsaForm(g, order, t, df, f.parameters, wanted, raw, placed, f.blocks, envs);
    PlacementHolds(s);
    RenamableIs(Placement(g, t, df, raw, f.parameters, wanted, placed));
    if ok {
      FormHolds(s, c0, c1);
    }
  }

  lemma PlacementHolds(s: SsaForm)
    requires Final(s.g, s.order, s.t) && JoinsOk(s.g) && s.g == FlowGraph(s.raw, s.g.entry) && FrontiersExact(s.g, s.df)
    requires TreeIsExact(s.g, s.t) && PlacedFor(s.df, s.raw, s.g.entry, s.parameters, s.wanted, s.placed)
    requires forall x, b :: DefinedIn(s.raw, s.g.entry, s.parameters, x, b) ==> x in s.wanted
    ensures PlacementOk(Placement(s.g, s.t, s.df, s.raw, s.parameters, s.wanted, s.placed))
    ensures Rooted(s.t) && s.t.idom.Keys <= s.placed.Keys
  {
    hide PhisAt, Settled, Laws, SearchOrder, Dominates, DefinedIn, Reaches, FrontiersExact;
    LinkedKeys(s);
  }

  /**
   * The condition is about some path and not about all: a symbol assigned on one
   * side of a diamond may be read behind the join. The phi node there counts.
   */
  lemma DiamondIsRenamed(x: Symbol, c: Constant)
    ensures var blocks := Diamond(x, c);
            var g := FlowGraph(blocks, 0);
            && AsBuilt(blocks, 0, []) && ReadsReached(blocks, 0, []) && ReadsFirst(blocks[3], x)
            && PathBetween(g, [0, 2, 3], 0, 3) && forall b :: b in [0, 2, 3] ==> x !in Assigned(blocks[b].body)
  {
    hide AsBuilt, ReadsReached, ReadsFirst, Assigned, Reaches;
    var blocks := Diamond(x, c);
    var g := FlowGraph(blocks, 0);
    DiamondEdges(x, c);
    DiamondIsBuilt(x, c);
    DiamondReads(x, c);
    assert PathBetween(g, [0, 2, 3], 0, 3);
    NothingAssigned([]);
  }

  lemma DiamondEdges(x: Symbol, c: Constant)
    ensures var g := FlowGraph(Diamond(x, c), 0);
            && (forall a, b {:trigger Edge(g, a, b)} ::
                  Edge(g, a, b) <==>
                    (a == 0 && b == 1) || (a == 0 && b == 2) || (a == 1 && b == 3) || (a == 2 && b == 3))
            && (forall a, b {:trigger Edge(g, a, b)} :: Edge(g, a, b) ==> b in g.succ && a in g.pred[b])
            && (forall a, b {:trigger Edge(g, a, b)} :: b in g.pred && a in g.pred[b] ==> Edge(g, a, b))
  {
    var g := FlowGraph(Diamond(x, c), 0);
    assert g.succ[0][0] == 1 && g.succ[0][1] == 2 && g.succ[1][0] == 3 && g.succ[2][0] == 3;
    assert g.pred[3][0] == 1 && g.pred[3][1] == 2 && g.pred[1][0] == 0 && g.pred[2][0] == 0;
  }

  lemma DiamondIsBuilt(x: Symbol, c: Constant)
    ensures AsBuilt(Diamond(x, c), 0, [])
  {
    hide Unversioned, JoinsOk, JumpsAlongEdges, Diamond;
    DiamondLinked(x, c);
    DiamondJumps(x, c);
    DiamondUnversioned(x, c);
  }

  lemma DiamondLinked(x: Symbol, c: Constant)
    ensures JoinsOk(FlowGraph(Diamond(x, c), 0))
  {
    var g := FlowGraph(Diamond(x, c), 0);
    DiamondEdges(x, c);
    assert g.succ.Keys == {0, 1, 2, 3} && g.pred.Keys == {0, 1, 2, 3} && g.pred[0] == [];
    hide FlowGraph, Diamond;
    assert Reaches(g, 0, 0) by { assert PathBetween(g, [0], 0, 0); }
    assert Reaches(g, 0, 1) by { assert PathBetween(g, [0, 1], 0, 1); }
    assert Reaches(g, 0, 2) by { assert PathBetween(g, [0, 2], 0, 2); }
    assert Reaches(g, 0, 3) by { assert PathBetween(g, [0, 2, 3], 0, 3); }
    hide Reaches, Edge;
  }

  lemma DiamondJumps(x: Symbol, c: Constant)
    ensures var blocks := Diamond(x, c);
            && JumpsAlongEdges(blocks)
            && forall b :: b in blocks ==> blocks[b].phis == [] && Distinct(blocks[b].successors)
  {
    var blocks := Diamond(x, c);
    assert blocks[0].successors[0] == 1 && blocks[0].successors[1] == 2;
    assert blocks[1].successors[0] == 3 && blocks[2].successors[0] == 3;
  }

  lemma DiamondUnversioned(x: Symbol, c: Constant)
    ensures Unversioned(Diamond(x, c))
  {
  }

  lemma DiamondReads(x: Symbol, c: Constant)
    ensures ReadsReached(Diamond(x, c), 0, []) && ReadsFirst(Diamond(x, c)[3], x)
  {
    var blocks := Diamond(x, c);
    var g := FlowGraph(blocks, 0);
    DiamondEdges(x, c);
    assert blocks[1].body[0].dest.symbol == x;
    assert Reaches(g, 3, 3) by { assert PathBetween(g, [3], 3, 3); }
    assert Edge(g, 1, 3) && LeadsTo(g, 1, 3);
    assert TerminatorOperands(blocks[3].term)[0].reg.symbol == x;
    NothingAssigned([]);
    hide FlowGraph, Reaches;
    forall b, y {:trigger ReadsFirst(blocks[b], y)} | b in blocks && ReadsFirst(blocks[b], y)
      ensures AssignedBefore(g, blocks, b, y)
    {
      assert b == 3 && y == x;
    }
  }

  lemma NothingAssigned(body: seq<Instruction>)
    requires body == []
    ensures Assigned(body) == {}
  {
  }

  function Diamond(x: Symbol, c: Constant): Blocks {
    map[
      0 := Block([], [], Branch(Literal(c), 1, 2), [], [1, 2]),
      1 := Block([], [Copy(First(x), Literal(c))], Jump(3), [0], [3]),
      2 := Block([], [], Jump(3), [0], [3]),
      3 := Block([], [], Return(Some(Operand.Location(First(x)))), [1, 2], [])
    ]
  }

  method GraphOf(blocks: Blocks, entry: BlockId) returns (g: Graph)
    ensures g == FlowGraph(blocks, entry) && g.entry == entry
  {
    g := FlowGraph(blocks, entry);
  }

  lemma FrontiersInside(g: Graph, df: Frontiers)
    requires df.Keys == g.succ.Keys
    requires forall a, b :: a in df ==> (b in df[a] <==> b in g.succ && InFrontier(g, a, b))
    ensures forall b :: b in df ==> df[b] <= df.Keys
    ensures FrontiersExact(g, df)
  {
    hide InFrontier;
  }

  lemma FormHolds(s: SsaForm, c0: Counters, c1: Counters)
    requires Final(s.g, s.order, s.t) && JoinsOk(s.g) && s.g == FlowGraph(s.raw, s.g.entry) && FrontiersExact(s.g, s.df)
    requires PlacedFor(s.df, s.raw, s.g.entry, s.parameters, s.wanted, s.placed)
    requires forall x, b :: DefinedIn(s.raw, s.g.entry, s.parameters, x, b) ==> x in s.wanted
    requires RenamedFunction(s.t, s.parameters, s.placed, s.blocks, s.envs, c0, c1)
    ensures FormOk(s) && EveryRegisterOnce(s.blocks, s.parameters)
  {
    hide PhisAt, PassAt, FrontiersExact, Settled, Laws, SearchOrder, Dominates, SingleAssignment, DefinedIn,
        EveryRegisterOnce;
    LinkedKeys(s);
    SingleAssignmentHolds(s.t, s.parameters, s.placed, s.blocks, s.envs, c0, c1);
  }

  lemma LinkedKeys(s: SsaForm)
    requires Final(s.g, s.order, s.t) && JoinsOk(s.g) && s.g == FlowGraph(s.raw, s.g.entry)
    ensures s.t.idom.Keys == s.raw.Keys && s.t.entry == s.g.entry
  {
    hide Settled, Laws, Reaches, Dominates, Sweeping;
    forall b | b in s.raw ensures b in s.t.idom {
      assert b in s.g.succ;
      FinalFacts(s.g, s.order, s.t, b);
    }
    assert s.g.entry in s.g.succ;
    FinalFacts(s.g, s.order, s.t, s.g.entry);
    LinksInside(s.g, s.order, s.t);
  }

  /** No phi nodes are left, and control can go where it could. */
  ghost predicate SameFlow(blocks0: Blocks, blocks1: Blocks) {
    && blocks1.Keys == blocks0.Keys
    && forall b :: b in blocks0 ==>
         && blocks1[b].phis == [] && Targets(blocks1[b].term) == Targets(blocks0[b].term)
         && blocks1[b].predecessors == blocks0[b].predecessors && blocks1[b].successors == blocks0[b].successors
  }

  lemma EliminatedFlow(s: SsaForm, elim: Blocks)
    requires FormOk(s) && Eliminated(s.blocks, elim) && AsBuilt(s.raw, s.g.entry, s.parameters)
    ensures SameFlow(s.raw, elim)
  {
    AllLinked(s);
    forall b | b in s.raw
      ensures b in elim && elim[b].phis == [] && Targets(elim[b].term) == Targets(s.raw[b].term)
      ensures elim[b].predecessors == s.raw[b].predecessors && elim[b].successors == s.raw[b].successors
    {
      BlockFlow(s, elim, b);
    }
  }

  lemma BlockFlow(s: SsaForm, elim: Blocks, b: BlockId)
    requires FormOk(s) && Eliminated(s.blocks, elim) && AsBuilt(s.raw, s.g.entry, s.parameters) && b in s.raw
    ensures b in elim && elim[b].phis == [] && Targets(elim[b].term) == Targets(s.raw[b].term)
    ensures elim[b].predecessors == s.raw[b].predecessors && elim[b].successors == s.raw[b].successors
  {
    hide FormOk, JoinsOk, JumpsAlongEdges, Unversioned, Owed, EnvOut, CurrentCopies, PhisAt, PhisGrew, BodyRenamed,
        Distinct;
    BlockFacts(s, b);
    TermRenamed(s, elim, b);
    CopiesAreCurrent(s, elim, b);
    SameTargets(s.raw[b].term, OutOf(s, b));
  }

  lemma SameTargets(t: Terminator, env: Env)
    requires RenameTerminator(t, env).Some?
    ensures Targets(RenameTerminator(t, env).value) == Targets(t)
  {
    hide RenameOperand;
  }

  /** SSA construction followed by phi elimination: the code that is lowered. */
  method ConstructAndEliminate(f: SsaFunction) returns (ok: bool, ghost s: SsaForm)
    requires AsBuilt(f.blocks, f.entry, f.parameters)
    modifies f`blocks
    ensures ok <==> ReadsReached(old(f.blocks), f.entry, f.parameters)
    ensures s.raw == old(f.blocks) && s.g.entry == f.entry && s.parameters == f.parameters
    ensures ok ==> FormOk(s) && Eliminated(s.blocks, f.blocks) && SameFlow(s.raw, f.blocks)
    ensures ok ==> forall arguments, storage, n: nat, call ::
              RunsAgree(old(f.blocks), f.blocks, f.entry, f.parameters, arguments, storage, n, call)
  {
    hide FormOk, AsBuilt, EveryRegisterOnce, Eliminated, RunsAgree, ReadsReached, SameFlow;
    ok, s := ConstructSsa(f);
    if ok {
      EliminatePhiNodes(f);
      EliminatedFlow(s, f.blocks);
      forall arguments, storage, n: nat, call
        ensures RunsAgree(s.raw, f.blocks, f.entry, f.parameters, arguments, storage, n, call)
      {
        ResultsAgree(s, f.blocks, arguments, storage, n, call);
      }
    }
  }

  /** Two functions, run for n blocks: same block and storage, or same result. */
  ghost predicate RunsAgree(
      blocks0: Blocks, blocks1: Blocks, entry: BlockId, parameters: seq<Symbol>,
      arguments: map<Symbol, Word>, storage: Storage, n: nat, call: Oracle)
  {
    var start := At(entry, ParameterRegs(parameters, arguments), storage);
    match Steps(blocks0, start, n, call)
    case At(b, _, st) =>
      var s := Steps(blocks1, start, n, call);
      s.At? && s.block == b && s.storage == st
    case Done(v, st) => Steps(blocks1, start, n, call) == Done(v, st)
    case Stuck => Steps(blocks1, start, n, call) == Stuck
  }

  lemma ResultsAgree(
      s: SsaForm, elim: Blocks, arguments: map<Symbol, Word>, storage: Storage, n: nat, call: Oracle)
    requires FormOk(s) && AsBuilt(s.raw, s.g.entry, s.parameters) && Eliminated(s.blocks, elim)
    ensures RunsAgree(s.raw, elim, s.g.entry, s.parameters, arguments, storage, n, call)
  {
    hide FormOk, Eliminated, JoinsOk, Distinct, Unversioned, JumpsAlongEdges, Steps, Match, ParameterRegs;
    SsaPreservesMeaning(s, elim, arguments, storage, n, call);
  }
}
