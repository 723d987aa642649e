/**
 * Which functions can be renamed (ir/src/ssa_ir.rs). Renaming asks of every read that a
 * block up the dominator tree, or a phi node of its own block, defines the symbol.
 * Over the function as written that means: a parameter, or some assignment from
 * which a path leads to the block.
 */
module Definedness {
  import opened Sequences
  import opened Graphs
  import opened Dominance
  import opened Frontier
  import opened Ssa
  import opened PhiPlacement
  import opened Renaming
  import opened RenamingWalk
  import opened RenamingMeaning

  // ---------------------------------------------------------------------------
  // Over the function as written
  // ---------------------------------------------------------------------------

  ghost predicate ReadsSymbol(os: seq<Operand>, x: Symbol) {
    exists k :: 0 <= k < |os| && os[k].Location? && os[k].reg.symbol == x
  }

  /** Instruction i of the body reads x, and none before it assigns x. */
  ghost predicate ReadsAt(body: seq<Instruction>, i: nat, x: Symbol)
    requires i < |body|
  {
    ReadsSymbol(Operands(body[i]), x) && x !in Assigned(body[..i])
  }

  /** The block reads x before it assigns x. */
  ghost predicate ReadsFirst(b: Block, x: Symbol) {
    || (exists i :: 0 <= i < |b.body| && ReadsAt(b.body, i, x))
    || (ReadsSymbol(TerminatorOperands(b.term), x) && x !in Assigned(b.body))
  }

  /** A path with at least one edge. */
  ghost predicate LeadsTo(g: Graph, a: Node, b: Node) {
    exists c :: Edge(g, a, c) && Reaches(g, c, b)
  }

  /** Some assignment of x can have run before the block does. */
  ghost predicate AssignedBefore(g: Graph, raw: Blocks, b: BlockId, x: Symbol) {
    exists d :: d in raw && x in Assigned(raw[d].body) && LeadsTo(g, d, b)
  }

  /** Every symbol read first in a block is a parameter or may have been assigned on the way there. */
  ghost predicate ReadsReached(raw: Blocks, entry: BlockId, parameters: seq<Symbol>) {
    forall b, x {:trigger ReadsFirst(raw[b], x)} :: b in raw && ReadsFirst(raw[b], x) ==>
      x in parameters || AssignedBefore(FlowGraph(raw, entry), raw, b, x)
  }

  // ---------------------------------------------------------------------------
  // Over the placed phi nodes and the tree
  // ---------------------------------------------------------------------------

  /** A function with phi nodes placed by exact frontiers, and its exact dominator tree. */
  datatype Placement = Placement(
    g: Graph, t: Links, df: Frontiers, raw: Blocks, parameters: seq<Symbol>, wanted: set<Symbol>, placed: Blocks)

  ghost predicate PlacementOk(s: Placement) {
    && JoinsOk(s.g) && s.g == FlowGraph(s.raw, s.g.entry)
    && TreeIsExact(s.g, s.t) && s.t.entry == s.g.entry && s.t.idom.Keys == s.raw.Keys
    && FrontiersExact(s.g, s.df)
    && PlacedFor(s.df, s.raw, s.g.entry, s.parameters, s.wanted, s.placed)
    && forall x, b :: DefinedIn(s.raw, s.g.entry, s.parameters, x, b) ==> x in s.wanted
  }

  /** A block that dominates b and is not b defines x. */
  ghost predicate DefinedAbove(s: Placement, b: BlockId, x: Symbol) {
    exists a :: a in s.placed && a != b && Dominates(s.g, a, b) && x in Defined(s.placed[a])
  }

  /** x has a version when the block's body starts. */
  ghost predicate HasVersion(s: Placement, b: BlockId, x: Symbol)
    requires b in s.placed
  {
    x in s.parameters || x in PhiSymbols(s.placed[b].phis) || DefinedAbove(s, b, x)
  }

  lemma BlockAsPlaced(s: Placement, b: BlockId)
    requires PlacementOk(s) && b in s.raw
    ensures b in s.placed && s.placed[b] == s.raw[b].(phis := s.placed[b].phis)
    ensures Defined(s.placed[b]) == ToSet(PhiSymbols(s.placed[b].phis)) + Assigned(s.raw[b].body)
    ensures forall x :: x in PhiSymbols(s.placed[b].phis) <==>
              x in s.wanted && NeedsPhi(s.df, SitesOf(s.raw, s.g.entry, s.parameters, x), b)
  {
    hide JoinsOk, TreeIsExact, FrontiersExact, NeedsPhi, SitesOf, Assigned, DefinedIn, Distinct;
    assert PhisAt(s.df, s.raw, s.g.entry, s.parameters, s.wanted, b, s.placed[b].phis);
  }

  // ---------------------------------------------------------------------------
  // Paths bring versions
  // ---------------------------------------------------------------------------

  /** What a block defines gets a phi node in the block's frontier. */
  lemma FrontierHasPhi(s: Placement, a: BlockId, c: BlockId, x: Symbol)
    requires PlacementOk(s) && a in s.raw && c in s.raw && InFrontier(s.g, a, c)
    requires a in s.placed && c in s.placed && x in Defined(s.placed[a])
    ensures x in PhiSymbols(s.placed[c].phis)
  {
    BlockAsPlaced(s, a);
    BlockAsPlaced(s, c);
    hide JoinsOk, TreeIsExact, PlacedFor, NeedsPhi, Assigned, InFrontier, Defined;
    var sites := SitesOf(s.raw, s.g.entry, s.parameters, x);
    assert c in s.df[a];
    if x in Assigned(s.raw[a].body) {
      assert DefinedIn(s.raw, s.g.entry, s.parameters, x, a);
    }
    NeedsPhiNext(s.df, sites, a, c);
  }

  /** A block whose predecessor ends with a version of x starts with one. */
  lemma VersionCrosses(s: Placement, p: BlockId, c: BlockId, x: Symbol)
    requires PlacementOk(s) && Edge(s.g, p, c) && p in s.placed && c in s.placed && p in s.raw && c in s.raw
    requires HasVersion(s, p, x) || x in Assigned(s.raw[p].body)
    ensures HasVersion(s, c, x)
  {
    BlockAsPlaced(s, p);
    if x !in s.parameters {
      var a := DefinerOf(s, p, x);
      SelfDominates(s.g, p);
      hide PlacementOk, Dominates, Defined, Assigned;
      if a == c || !Dominates(s.g, a, c) {
        assert InFrontier(s.g, a, c);
        Domain(s, a);
        FrontierHasPhi(s, a, c, x);
      }
    }
  }

  lemma DefinerOf(s: Placement, p: BlockId, x: Symbol) returns (a: BlockId)
    requires PlacementOk(s) && p in s.placed && p in s.raw && x !in s.parameters
    requires HasVersion(s, p, x) || x in Assigned(s.raw[p].body)
    ensures a in s.placed && Dominates(s.g, a, p) && x in Defined(s.placed[a])
  {
    BlockAsPlaced(s, p);
    SelfDominates(s.g, p);
    hide PlacementOk, Dominates, Defined, Assigned;
    if DefinedAbove(s, p, x) {
      a :| a in s.placed && a != p && Dominates(s.g, a, p) && x in Defined(s.placed[a]);
    } else {
      a := p;
    }
  }

  lemma Domain(s: Placement, a: BlockId)
    requires PlacementOk(s)
    ensures a in s.placed <==> a in s.raw
    ensures a in s.raw <==> a in s.g.succ
  {
  }

  lemma EdgeInside(s: Placement, p: BlockId, c: BlockId)
    requires PlacementOk(s) && Edge(s.g, p, c)
    ensures p in s.raw && p in s.placed && c in s.raw && c in s.placed
  {
    hide TreeIsExact, FrontiersExact, PhisAt, DefinedIn, Reaches;
    assert c in s.g.succ;
  }

  lemma AssignedHasVersion(s: Placement, b: BlockId, x: Symbol)
    requires PlacementOk(s) && b in s.placed && AssignedBefore(s.g, s.raw, b, x)
    ensures HasVersion(s, b, x)
  {
    hide PlacementOk, HasVersion, Reaches, Assigned;
    var d :| d in s.raw && x in Assigned(s.raw[d].body) && LeadsTo(s.g, d, b);
    var c :| Edge(s.g, d, c) && Reaches(s.g, c, b);
    EdgeInside(s, d, c);
    VersionCrosses(s, d, c, x);
    var having := set e | e in s.placed && HasVersion(s, e, x);
    forall e, e' {:trigger Edge(s.g, e, e')} | e in having && Edge(s.g, e, e') ensures e' in having {
      EdgeInside(s, e, e');
      VersionCrosses(s, e, e', x);
    }
    ClosedContainsReached(s.g, having, c);
  }

  // ---------------------------------------------------------------------------
  // Versions come from paths
  // ---------------------------------------------------------------------------

  lemma ReachesAcross(g: Graph, a: Node, b: Node, c: Node)
    requires WellLinked(g) && Reaches(g, a, b) && Reaches(g, b, c)
    ensures Reaches(g, a, c)
  {
    hide Reaches;
    var reached := set e | e in g.succ && Reaches(g, a, e);
    ReachedInside(g, a, b);
    forall e, e' {:trigger Edge(g, e, e')} | e in reached && Edge(g, e, e') ensures e' in reached {
      ReachesFurther(g, a, e, e');
    }
    ClosedContainsReached(g, reached, b);
  }

  lemma ReachedInside(g: Graph, a: Node, b: Node)
    requires Reaches(g, a, b)
    ensures b in g.succ
  {
    var p :| PathBetween(g, p, a, b);
  }

  lemma LeadsOn(g: Graph, a: Node, b: Node, c: Node)
    requires WellLinked(g) && LeadsTo(g, a, b) && Reaches(g, b, c)
    ensures LeadsTo(g, a, c)
  {
    hide Reaches;
    var e :| Edge(g, a, e) && Reaches(g, e, b);
    ReachesAcross(g, e, b, c);
  }

  /** A dominator of a reachable node reaches it. */
  lemma DominatorReaches(g: Graph, a: Node, b: Node)
    requires Dominates(g, a, b) && Reaches(g, g.entry, b)
    ensures Reaches(g, a, b)
  {
    var p :| PathBetween(g, p, g.entry, b);
    var i :| 0 <= i < |p| && p[i] == a;
    var q := p[i..];
    forall k | 0 <= k < |q| - 1 ensures Edge(g, q[k], q[k + 1]) {
      assert Edge(g, p[i + k], p[i + k + 1]);
    }
    assert PathBetween(g, q, a, b);
  }

  lemma StrictDominatorLeads(g: Graph, a: Node, b: Node)
    requires Dominates(g, a, b) && Reaches(g, g.entry, b) && a != b
    ensures LeadsTo(g, a, b)
  {
    DominatorReaches(g, a, b);
    var p :| PathBetween(g, p, a, b);
    var q := p[1..];
    forall k | 0 <= k < |q| - 1 ensures Edge(g, q[k], q[k + 1]) {
      assert Edge(g, p[k + 1], p[k + 2]);
    }
    assert PathBetween(g, q, p[1], b);
    assert Edge(g, p[0], p[1]);
  }

  /** A node leads to the nodes of its frontier. */
  lemma FrontierIsAhead(g: Graph, a: Node, b: Node)
    requires JoinsOk(g) && InFrontier(g, a, b)
    ensures LeadsTo(g, a, b)
  {
    hide Dominates;
    var p :| Edge(g, p, b) && Dominates(g, a, p);
    assert b in g.succ && p in g.succ;
    Ahead(g, a, p, b);
  }

  lemma Ahead(g: Graph, a: Node, p: Node, b: Node)
    requires WellLinked(g) && Dominates(g, a, p) && Reaches(g, g.entry, p) && Edge(g, p, b)
    ensures LeadsTo(g, a, b)
  {
    hide Dominates, Reaches;
    assert b in g.succ;
    ReachesItself(g, b);
    if a != p {
      StrictDominatorLeads(g, a, p);
      ReachesFurther(g, p, p, b) by { assert p in g.succ; ReachesItself(g, p); }
      LeadsOn(g, a, p, b);
    }
  }

  /** The blocks that some assignment of x can have run before. */
  ghost function AheadOf(s: Placement, x: Symbol): set<BlockId> {
    set c | c in s.raw && AssignedBefore(s.g, s.raw, c, x)
  }

  /** They are closed under frontiers. */
  lemma AheadIsClosed(s: Placement, x: Symbol)
    requires PlacementOk(s) && x !in s.parameters
    ensures ClosedUnder(s.df, SitesOf(s.raw, s.g.entry, s.parameters, x), AheadOf(s, x))
  {
    hide PlacementOk, AssignedBefore, SitesOf;
    var sites := SitesOf(s.raw, s.g.entry, s.parameters, x);
    forall c | c in s.df && (c in sites || c in AheadOf(s, x)) ensures s.df[c] <= AheadOf(s, x) {
      forall e | e in s.df[c] ensures e in AheadOf(s, x) {
        FrontierAhead(s, c, e, x);
      }
    }
  }

  /** So every phi node stands in one of them. */
  lemma PhiIsAhead(s: Placement, b: BlockId, x: Symbol)
    requires PlacementOk(s) && b in s.placed && x in PhiSymbols(s.placed[b].phis) && x !in s.parameters
    ensures AssignedBefore(s.g, s.raw, b, x)
  {
    Domain(s, b);
    BlockAsPlaced(s, b);
    AheadIsClosed(s, x);
    hide PlacementOk, AssignedBefore, SitesOf, ClosedUnder, Assigned, Defined;
    assert b in AheadOf(s, x);
  }

  lemma FrontierAhead(s: Placement, c: BlockId, e: BlockId, x: Symbol)
    requires PlacementOk(s) && c in s.df && e in s.df[c] && x !in s.parameters
    requires c in SitesOf(s.raw, s.g.entry, s.parameters, x) || AssignedBefore(s.g, s.raw, c, x)
    ensures e in s.raw && AssignedBefore(s.g, s.raw, e, x)
  {
    hide TreeIsExact, PlacedFor, InFrontier, Assigned, WellLinked, AllReachable, LeadsTo;
    assert InFrontier(s.g, c, e) && e in s.g.succ;
    FrontierIsAhead(s.g, c, e);
    if c !in SitesOf(s.raw, s.g.entry, s.parameters, x) {
      BeforeAhead(s.g, s.raw, c, e, x);
    }
  }

  lemma BeforeAhead(g: Graph, raw: Blocks, c: BlockId, e: BlockId, x: Symbol)
    requires WellLinked(g) && AssignedBefore(g, raw, c, x) && LeadsTo(g, c, e)
    ensures AssignedBefore(g, raw, e, x)
  {
    hide Reaches, Assigned;
    var d :| d in raw && x in Assigned(raw[d].body) && LeadsTo(g, d, c);
    var f :| Edge(g, c, f) && Reaches(g, f, e);
    assert f in g.succ && c in g.succ;
    ReachesItself(g, c);
    ReachesFurther(g, c, c, f);
    ReachesAcross(g, c, f, e);
    LeadsOn(g, d, c, e);
  }

  lemma VersionIsAssigned(s: Placement, b: BlockId, x: Symbol)
    requires PlacementOk(s) && b in s.placed && HasVersion(s, b, x) && x !in s.parameters
    ensures AssignedBefore(s.g, s.raw, b, x)
  {
    Domain(s, b);
    if x in PhiSymbols(s.placed[b].phis) {
      PhiIsAhead(s, b, x);
    } else {
      var a :| a in s.placed && a != b && Dominates(s.g, a, b) && x in Defined(s.placed[a]);
      Domain(s, a);
      BlockAsPlaced(s, a);
      Reached(s, b);
      hide PlacementOk, Defined, Assigned, Dominates, LeadsTo;
      StrictDominatorLeads(s.g, a, b);
      if x !in Assigned(s.raw[a].body) {
        PhiIsAhead(s, a, x);
        BeforeAhead(s.g, s.raw, a, b, x);
      }
    }
  }

  lemma Reached(s: Placement, b: BlockId)
    requires PlacementOk(s) && b in s.raw
    ensures WellLinked(s.g) && Reaches(s.g, s.g.entry, b)
  {
    hide TreeIsExact, FrontiersExact, PlacedFor, DefinedIn, Reaches;
    assert b in s.g.succ;
  }

  // ---------------------------------------------------------------------------
  // What renaming asks
  // ---------------------------------------------------------------------------

  /** What is available down the tree is the parameters and what strict dominators define. */
  lemma {:induction false} AvailableIs(s: Placement, b: BlockId, x: Symbol)
    requires PlacementOk(s) && Rooted(s.t) && b in s.t.idom && s.t.idom.Keys <= s.placed.Keys
    ensures x in Available(s.t, s.placed, ToSet(s.parameters), b) <==> x in s.parameters || DefinedAbove(s, b, x)
    decreases s.t.idx[b]
  {
    hide Defined, FrontiersExact, PlacedFor, DefinedIn, JoinsOk;
    if b == s.t.entry {
      Reached(s, b);
      NothingAboveEntry(s, x);
    } else {
      var d := s.t.idom[b];
      AvailableIs(s, d, x);
      Reached(s, b);
      Reached(s, d);
      AboveIsLinkOrAbove(s, b, x);
    }
  }

  lemma NothingAboveEntry(s: Placement, x: Symbol)
    requires PlacementOk(s) && s.g.entry in s.raw
    ensures !DefinedAbove(s, s.g.entry, x)
  {
    hide FrontiersExact, PlacedFor, DefinedIn, Defined;
    Reached(s, s.g.entry);
    forall a | Dominates(s.g, a, s.g.entry) ensures a == s.g.entry {
      OnlyEntryDominatesEntry(s.g, a);
    }
  }

  lemma AboveIsLinkOrAbove(s: Placement, b: BlockId, x: Symbol)
    requires PlacementOk(s) && Rooted(s.t) && b in s.t.idom && b != s.t.entry && s.t.idom[b] in s.placed
    requires Reaches(s.g, s.g.entry, b) && Reaches(s.g, s.g.entry, s.t.idom[b])
    ensures DefinedAbove(s, b, x) <==> x in Defined(s.placed[s.t.idom[b]]) || DefinedAbove(s, s.t.idom[b], x)
  {
    hide Defined, FrontiersExact, PlacedFor, DefinedIn, JoinsOk, Dominates, Reaches, Rooted;
    var d := s.t.idom[b];
    forall a ensures a != b && Dominates(s.g, a, b) <==> Dominates(s.g, a, d) {
      AboveLink(s.t, a, b);
      assert a in Ancestors(s.t, b) <==> Dominates(s.g, a, b);
      assert a in Ancestors(s.t, d) <==> Dominates(s.g, a, d);
    }
    SelfDominates(s.g, d);
  }

  lemma AboveLink(t: Links, a: Node, b: Node)
    requires Rooted(t) && b in t.idom && b != t.entry
    ensures t.idom[b] in t.idom && (a in Ancestors(t, t.idom[b]) <==> a != b && a in Ancestors(t, b))
  {
    assert b !in Ancestors(t, t.idom[b]);
  }

  lemma MissingIs(os: seq<Operand>, avail: set<Symbol>)
    ensures Missing(os, avail) <==> exists x :: ReadsSymbol(os, x) && x !in avail
  {
    if k :| 0 <= k < |os| && os[k].Location? && os[k].reg.symbol !in avail {
      assert ReadsSymbol(os, os[k].reg.symbol);
    }
  }

  /** A block uses something undefined exactly if it reads first a symbol that has no version. */
  lemma UndefinedIs(raw: Block, placed: Block, avail: set<Symbol>)
    requires placed == raw.(phis := placed.phis)
    ensures UsesUndefined(placed, avail) <==>
            exists x :: ReadsFirst(raw, x) && x !in avail && x !in PhiSymbols(placed.phis)
  {
    hide Missing, ReadsSymbol, Assigned, Operands;
    var phis := ToSet(PhiSymbols(placed.phis));
    forall i | 0 <= i < |raw.body| { MissingIs(Operands(raw.body[i]), avail + phis + Assigned(raw.body[..i])); }
    MissingIs(TerminatorOperands(raw.term), avail + Defined(placed));
    if UsesUndefined(placed, avail) {
      if i :| 0 <= i < |raw.body| && BodyMissing(raw.body, i, avail + phis) {
        var x :| ReadsSymbol(Operands(raw.body[i]), x) && x !in avail + phis + Assigned(raw.body[..i]);
        assert ReadsAt(raw.body, i, x);
      } else {
        var x :| ReadsSymbol(TerminatorOperands(raw.term), x) && x !in avail + Defined(placed);
      }
    }
    if x :| ReadsFirst(raw, x) && x !in avail && x !in PhiSymbols(placed.phis) {
      if i :| 0 <= i < |raw.body| && ReadsAt(raw.body, i, x) {
        assert BodyMissing(placed.body, i, avail + phis);
      }
    }
  }

  /** One block: the renamer's question is the one about paths. */
  lemma BlockReads(s: Placement, b: BlockId)
    requires PlacementOk(s) && Rooted(s.t) && b in s.t.idom && s.t.idom.Keys <= s.placed.Keys && b in s.raw
    ensures ReadsDefined(s.t, s.placed, ToSet(s.parameters), b) <==>
            forall x :: ReadsFirst(s.raw[b], x) ==> x in s.parameters || AssignedBefore(s.g, s.raw, b, x)
  {
    var avail := Available(s.t, s.placed, ToSet(s.parameters), b);
    BlockAsPlaced(s, b);
    forall x ensures (x in avail || x in PhiSymbols(s.placed[b].phis)) <==>
                     (x in s.parameters || AssignedBefore(s.g, s.raw, b, x)) {
      AvailableIs(s, b, x);
      if x !in s.parameters {
        if HasVersion(s, b, x) { VersionIsAssigned(s, b, x); }
        if AssignedBefore(s.g, s.raw, b, x) { AssignedHasVersion(s, b, x); }
      }
    }
    hide PlacementOk, Available, AssignedBefore, ReadsFirst, UsesUndefined, Rooted;
    UndefinedIs(s.raw[b], s.placed[b], avail);
  }

  /** Renaming succeeds exactly if every read is reached by an assignment or is of a parameter. */
  lemma RenamableIs(s: Placement)
    requires PlacementOk(s) && Rooted(s.t) && s.t.idom.Keys <= s.placed.Keys
    ensures (forall b :: b in s.t.idom ==> ReadsDefined(s.t, s.placed, ToSet(s.parameters), b)) <==>
            ReadsReached(s.raw, s.g.entry, s.parameters)
  {
    forall b | b in s.t.idom
      ensures b in s.raw
      ensures ReadsDefined(s.t, s.placed, ToSet(s.parameters), b) <==>
              forall x :: ReadsFirst(s.raw[b], x) ==> x in s.parameters || AssignedBefore(s.g, s.raw, b, x)
    {
      BlockReads(s, b);
    }
    hide JoinsOk, TreeIsExact, FrontiersExact, PlacedFor, ReadsDefined, ReadsFirst, AssignedBefore, Rooted;
  }
}
