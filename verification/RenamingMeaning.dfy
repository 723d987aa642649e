/**
 * SSA renaming preserves meaning: on every edge the version on top at the end of
 * the predecessor is the one on top at the start of the successor, unless a phi
 * node takes over; so in every run the current version of a symbol holds its value.
 */
module RenamingMeaning {
  import opened Sequences
  import opened Graphs
  import opened Dominance
  import opened Frontier
  import opened Ssa
  import opened PhiPlacement
  import opened RenamingSpec
  import opened Renaming
  import opened RenamingWalk

  // ---------------------------------------------------------------------------
  // The edge property
  // ---------------------------------------------------------------------------

  /** Both environments give x the same version, or neither gives it one. */
  ghost predicate AgreeOn(a: Env, b: Env, x: Symbol) {
    (x in a <==> x in b) && (x in a ==> a[x] == b[x])
  }

  lemma {:induction false} PhisLeave(env: Env, phis: seq<Phi>, x: Symbol)
    requires x !in PhiSymbols(phis)
    ensures AgreeOn(EnvAfterPhis(env, phis), env, x)
  {
    if phis != [] {
      var n := |phis| - 1;
      assert PhiSymbols(phis) == PhiSymbols(phis[..n]) + [phis[n].dest.symbol];
      PhisLeave(env, phis[..n], x);
    }
  }

  lemma {:induction false} BodyLeaves(env: Env, body: seq<Instruction>, x: Symbol)
    requires x !in Assigned(body)
    ensures AgreeOn(EnvAfterBody(env, body), env, x)
  {
    if body != [] {
      var n := |body| - 1;
      AssignedNext(body, n);
      assert body[..n + 1] == body;
      BodyLeaves(env, body[..n], x);
    }
  }

  lemma BlockLeaves(env: Env, b: Block, x: Symbol)
    requires x !in Defined(b)
    ensures AgreeOn(EnvOut(env, b), env, x)
  {
    hide Assigned;
    assert x !in ToSet(PhiSymbols(b.phis));
    PhisLeave(env, b.phis, x);
    BodyLeaves(EnvAfterPhis(env, b.phis), b.body, x);
  }

  /** A function whose phi nodes were placed by frontiers and which was then renamed. */
  datatype SsaForm = SsaForm(
    g: Graph, order: seq<Node>, t: Links, df: Frontiers, parameters: seq<Symbol>, wanted: set<Symbol>,
    raw: Blocks, placed: Blocks, blocks: Blocks, envs: map<BlockId, Env>)

  ghost predicate FrontiersExact(g: Graph, df: Frontiers) {
    df.Keys == g.succ.Keys && forall a, b :: a in df ==> (b in df[a] <==> b in g.succ && InFrontier(g, a, b))
  }

  ghost predicate FormOk(s: SsaForm) {
    && Final(s.g, s.order, s.t) && JoinsOk(s.g) && s.g == FlowGraph(s.raw, s.g.entry)
    && FrontiersExact(s.g, s.df)
    && PlacedFor(s.df, s.raw, s.g.entry, s.parameters, s.wanted, s.placed)
    && (forall x, b :: DefinedIn(s.raw, s.g.entry, s.parameters, x, b) ==> x in s.wanted)
    && Pass(s.placed, s.blocks, s.envs)
    && FlowsDown(s.t, s.g.entry, ParameterEnv(s.parameters), s.blocks, s.envs) && s.envs.Keys == s.raw.Keys
  }

  /** The environment at the end of a block. */
  function OutOf(s: SsaForm, b: BlockId): Env
    requires b in s.envs && b in s.blocks
  {
    EnvOut(s.envs[b], s.blocks[b])
  }

  lemma RenamedAssigned(body0: seq<Instruction>, body1: seq<Instruction>, env: Env)
    requires BodyRenamed(body0, body1, env)
    ensures Assigned(body0) == Assigned(body1)
  {
    hide EnvAfterBody, RenameOperands;
    forall i | 0 <= i < |body0|
      ensures DestRegister(body0[i]).Some? == DestRegister(body1[i]).Some?
      ensures DestRegister(body0[i]).Some? ==>
          DestRegister(body0[i]).value.symbol == DestRegister(body1[i]).value.symbol
    {
      var os := RenameOperands(Operands(body0[i]), EnvAfterBody(env, body1[..i])).value;
      RebuiltDest(body0[i], os, VersionOf(body1[i]));
    }
    SameAssigned(body0, body1);
  }

  lemma SameAssigned(body0: seq<Instruction>, body1: seq<Instruction>)
    requires |body0| == |body1|
    requires forall i :: 0 <= i < |body0| ==>
      DestRegister(body0[i]).Some? == DestRegister(body1[i]).Some?
      && (DestRegister(body0[i]).Some? ==> DestRegister(body0[i]).value.symbol == DestRegister(body1[i]).value.symbol)
    ensures Assigned(body0) == Assigned(body1)
  {
    hide DestRegister;
    forall x | x in Assigned(body0) ensures x in Assigned(body1) {
      var i :| 0 <= i < |body0| && DestRegister(body0[i]).Some? && DestRegister(body0[i]).value.symbol == x;
      assert DestRegister(body1[i]).Some?;
    }
    forall x | x in Assigned(body1) ensures x in Assigned(body0) {
      var i :| 0 <= i < |body1| && DestRegister(body1[i]).Some? && DestRegister(body1[i]).value.symbol == x;
      assert DestRegister(body0[i]).Some?;
    }
  }

  /** What is known of one block. */
  lemma BlockFacts(s: SsaForm, b: BlockId)
    requires FormOk(s) && b in s.raw
    ensures b in s.placed && b in s.blocks && b in s.envs && BlockRenamed(s.placed[b], s.blocks[b], s.envs[b])
    ensures PhiSymbols(s.blocks[b].phis) == PhiSymbols(s.placed[b].phis) && Distinct(PhiSymbols(s.blocks[b].phis))
    ensures Defined(s.blocks[b]) == Assigned(s.raw[b].body) + ToSet(PhiSymbols(s.placed[b].phis))
    ensures s.placed[b] == s.raw[b].(phis := s.placed[b].phis)
    ensures s.blocks[b].successors == s.raw[b].successors
    ensures PhisAt(s.df, s.raw, s.g.entry, s.parameters, s.wanted, b, s.placed[b].phis)
    ensures PhisGrew(s.placed[b], s.blocks[b], s.blocks, s.envs, b)
  {
    hide Final, JoinsOk, FrontiersExact, FlowsDown, PhisAt, BodyRenamed, EnvOut, RenameTerminator, PhisGrew, DefinedIn,
        Assigned;
    assert PassAt(s.placed, s.blocks, s.envs, b);
    SymbolsOfSame(s.placed[b].phis, s.blocks[b].phis);
    RenamedAssigned(s.placed[b].body, s.blocks[b].body, EnvAfterPhis(s.envs[b], s.blocks[b].phis));
    assert PhisAt(s.df, s.raw, s.g.entry, s.parameters, s.wanted, b, s.placed[b].phis);
    PhisDistinct(s.df, s.raw, s.g.entry, s.parameters, s.wanted, b, s.placed[b].phis);
  }

  lemma PhisDistinct(
      df: Frontiers, raw: Blocks, entry: BlockId, parameters: seq<Symbol>, wanted: set<Symbol>, b: BlockId,
      phis: seq<Phi>)
    requires PhisAt(df, raw, entry, parameters, wanted, b, phis)
    ensures Distinct(PhiSymbols(phis))
  {
  }

  /** A block that defines x passes a phi node for x on to its frontier. */
  lemma DefinitionsReachFrontier(s: SsaForm, d: BlockId, b: BlockId, x: Symbol)
    requires FormOk(s) && d in s.raw && d in s.blocks && x in Defined(s.blocks[d]) && InFrontier(s.g, d, b)
        && b in s.raw
    ensures b in s.blocks && x in PhiSymbols(s.blocks[b].phis)
  {
    hide Final, JoinsOk, FlowsDown, PassAt, NeedsPhi, Assigned, InFrontier, Defined, Distinct;
    BlockFacts(s, d);
    BlockFacts(s, b);
    var sites := SitesOf(s.raw, s.g.entry, s.parameters, x);
    assert b in s.df[d];
    if x in Assigned(s.raw[d].body) {
      assert DefinedIn(s.raw, s.g.entry, s.parameters, x, d);
    } else {
      assert x in PhiSymbols(s.placed[d].phis);
    }
    NeedsPhiNext(s.df, sites, d, b);
  }

  lemma {:induction false} AgreeUpTheChain(s: SsaForm, p: Node, r: Node, b: Node, x: Symbol)
    requires FormOk(s) && Edge(s.g, p, b) && b in s.raw && b in s.blocks && x !in PhiSymbols(s.blocks[b].phis)
    requires b != s.g.entry && Rooted(s.t) && p in s.t.idom && b in s.t.idom && s.t.idom[b] in s.t.idom
    requires r in Ancestors(s.t, p) && r in s.t.idom && s.t.idom[b] in Ancestors(s.t, r)
    requires s.envs.Keys == s.t.idom.Keys && s.blocks.Keys == s.t.idom.Keys
    ensures AgreeOn(OutOf(s, r), OutOf(s, s.t.idom[b]), x)
    decreases s.t.idx[r]
  {
    var stop := s.t.idom[b];
    if r != stop {
      NotInFrontierOf(s, p, r, b, x);
      RunnerStep(s.t, p, r, stop);
      BlockLeaves(s.envs[r], s.blocks[r], x);
      LinkEnv(s, r);
      AgreeUpTheChain(s, p, s.t.idom[r], b, x);
    }
  }

  lemma LinkEnv(s: SsaForm, r: Node)
    requires FormOk(s) && Rooted(s.t) && r in s.t.idom && r != s.t.entry && s.t.idom[r] in s.t.idom
    requires s.envs.Keys == s.t.idom.Keys && s.blocks.Keys == s.t.idom.Keys
    ensures s.envs[r] == OutOf(s, s.t.idom[r])
  {
    hide EnvOut, Laws, JoinsOk, FrontiersExact, PassAt, PlacedFor, Settled;
  }

  /** A node below the join's link on a predecessor's chain does not define x, or the join would have a phi node. */
  lemma NotInFrontierOf(s: SsaForm, p: Node, r: Node, b: Node, x: Symbol)
    requires FormOk(s) && Edge(s.g, p, b) && b in s.raw && b in s.blocks && x !in PhiSymbols(s.blocks[b].phis)
    requires b != s.g.entry && Rooted(s.t) && p in s.t.idom && b in s.t.idom && s.t.idom[b] in s.t.idom
    requires r in Ancestors(s.t, p) && r in s.t.idom && s.t.idom[b] in Ancestors(s.t, r) && r != s.t.idom[b]
    requires s.envs.Keys == s.t.idom.Keys && s.blocks.Keys == s.t.idom.Keys
    ensures x !in Defined(s.blocks[r])
  {
    RunnerStep(s.t, p, r, s.t.idom[b]);
    InTheFrontier(s.g, s.order, s.t, p, r, b);
    hide FormOk, Ancestors, Rooted, Defined;
    if x in Defined(s.blocks[r]) {
      RawHas(s, r);
      DefinitionsReachFrontier(s, r, b, x);
    }
  }

  lemma RawHas(s: SsaForm, r: Node)
    requires FormOk(s) && r in s.envs
    ensures r in s.raw
  {
  }

  lemma InTheFrontier(g: Graph, order: seq<Node>, t: Links, p: Node, r: Node, b: Node)
    requires Final(g, order, t) && JoinsOk(g) && Edge(g, p, b) && b != g.entry && b in g.succ
    requires Rooted(t) && p in t.idom && b in t.idom && t.idom[b] in t.idom
    requires r in Ancestors(t, p) && r !in Ancestors(t, t.idom[b])
    ensures InFrontier(g, r, b)
  {
    hide Laws, Sweeping, Settled, Ancestors, Reaches, Dominates;
    assert Reaches(g, g.entry, p) && Reaches(g, g.entry, b);
    AncestorsAreDominators(g, order, t, r, p);
    StrictDominators(g, order, t, r, b);
  }

  /**
   * The edge property: if the successor has no phi node for x, the version of x at
   * the end of the predecessor is the one at the start of the successor.
   */
  lemma EdgeKeepsVersion(s: SsaForm, p: Node, b: Node, x: Symbol)
    requires FormOk(s) && Edge(s.g, p, b)
    ensures p in s.envs && p in s.blocks && b in s.envs && b in s.blocks && b != s.g.entry
    ensures x !in PhiSymbols(s.blocks[b].phis) ==> AgreeOn(OutOf(s, p), s.envs[b], x)
  {
    EdgeFacts(s, p, b);
    hide FormOk, EnvOut, Defined, Ancestors, Rooted;
    if x !in PhiSymbols(s.blocks[b].phis) {
      SelfAncestor(s.t, p);
      AgreeUpTheChain(s, p, p, b, x);
      LinkEnv(s, b);
    }
  }

  lemma EdgeFacts(s: SsaForm, p: Node, b: Node)
    requires FormOk(s) && Edge(s.g, p, b)
    ensures Rooted(s.t) && p in s.t.idom && b in s.t.idom && s.t.idom[b] in s.t.idom && s.t.entry == s.g.entry
    ensures b != s.g.entry && b in s.raw && p in s.raw && s.t.idom[b] in Ancestors(s.t, p)
    ensures s.envs.Keys == s.t.idom.Keys && s.blocks.Keys == s.t.idom.Keys
  {
    hide Laws, Settled, Reaches, FrontiersExact, PassAt, PlacedFor, EnvOut, Dominates, Indexed;
    AllLinked(s);
    assert b in s.g.succ && p in s.g.pred[b];
    GraphFacts(s.g, s.order, s.t, b);
    FinalFacts(s.g, s.order, s.t, b);
  }

  lemma AllLinked(s: SsaForm)
    requires FormOk(s)
    ensures s.t.idom.Keys == s.raw.Keys && s.envs.Keys == s.raw.Keys && s.blocks.Keys == s.raw.Keys
    ensures WellLinked(s.g) && AllReachable(s.g)
  {
    hide Laws, Settled, Reaches, FrontiersExact, PassAt, PhisAt, EnvOut, Dominates, Indexed, FlowsDown, DefinedIn,
        Sweeping;
    forall b | b in s.raw ensures b in s.t.idom {
      assert b in s.g.succ;
      FinalFacts(s.g, s.order, s.t, b);
    }
    LinksInside(s.g, s.order, s.t);
  }
}
