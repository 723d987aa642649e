/**
 * Dominance frontiers (ir/src/ssa_ir.rs): from every predecessor of a join, walk up
 * the links until the join's own link. What is collected is exactly the frontier
 * of the definition: the blocks one edge behind where dominance ends.
 */
module Frontier {
  import opened Sequences
  import opened Graphs
  import opened Traversal
  import opened Dominance

  /** `a` dominates a predecessor of `b` but does not strictly dominate `b`. */
  ghost predicate InFrontier(g: Graph, a: Node, b: Node) {
    && (exists p :: Edge(g, p, b) && Dominates(g, a, p))
    && !(a != b && Dominates(g, a, b))
  }

  ghost predicate AllReachable(g: Graph) {
    forall b :: b in g.succ ==> Reaches(g, g.entry, b)
  }

  /** What the analyses ask of a graph whose frontiers are computed. */
  ghost predicate JoinsOk(g: Graph) {
    WellLinked(g) && AllReachable(g) && g.pred[g.entry] == []
  }

  type Frontiers = map<Node, set<Node>>

  /** `node` added to the entries of the nodes in `s`. */
  function AddTo(df: Frontiers, s: set<Node>, node: Node): Frontiers {
    map a | a in df :: if a in s then df[a] + {node} else df[a]
  }

  /** The nodes on the chain of p below `stop`. */
  ghost function Below(t: Links, p: Node, stop: Node): set<Node>
    requires Rooted(t) && p in t.idom && stop in t.idom
  {
    Ancestors(t, p) - Ancestors(t, stop)
  }

  /** The nodes from which some runner of these predecessors passes. */
  ghost function Passed(t: Links, preds: seq<Node>, stop: Node): set<Node>
    requires Rooted(t) && stop in t.idom
  {
    set p, a | p in preds && p in t.idom && a in Below(t, p, stop) :: a
  }

  lemma RunnerStep(t: Links, p: Node, runner: Node, stop: Node)
    requires Rooted(t) && p in t.idom && runner in Ancestors(t, p) && stop in Ancestors(t, runner) && runner != stop
    ensures runner in t.idom && runner != t.entry && t.idom[runner] in t.idom
    ensures t.idom[runner] in Ancestors(t, p) && stop in Ancestors(t, t.idom[runner])
    ensures runner in t.idx && t.idom[runner] in t.idx && t.idx[t.idom[runner]] < t.idx[runner]
    ensures Ancestors(t, runner) == {runner} + Ancestors(t, t.idom[runner])
    ensures runner !in Ancestors(t, t.idom[runner])
    ensures runner !in Ancestors(t, stop)
  {
    AncestorsOfAncestor(t, runner, p);
    assert runner != t.entry by {
      assert stop in t.idx && t.idx[stop] <= t.idx[runner];
    }
    RootedAt(t, runner);
    NotDeeper(t, stop, t.idom[runner]);
    assert t.idom[runner] in Ancestors(t, runner);
  }

  /** Walk from one predecessor up to the join's link, adding the join to every node passed. */
  method RunUp(df: Frontiers, t: Links, p: Node, stop: Node, node: Node) returns (r: Frontiers)
    requires Rooted(t) && p in t.idom && stop in Ancestors(t, p)
    requires forall a :: a in t.idom ==> a in df
    ensures r == AddTo(df, Below(t, p, stop), node)
  {
    hide Rooted, Ancestors;
    r := df;
    var runner := p;
    ghost var passed: set<Node> := {};
    WalkBegins(t, p, p);
    SelfAncestor(t, p);
    while runner != stop
      invariant runner in t.idom && runner in t.idx && runner in Ancestors(t, p) && stop in Ancestors(t, runner)
      invariant r == AddTo(df, passed, node)
      invariant passed + Ancestors(t, runner) == Ancestors(t, p) && passed !! Ancestors(t, runner)
      decreases t.idx[runner]
    {
      RunnerStep(t, p, runner, stop);
      AddOne(df, passed, node, runner);
      r := r[runner := r[runner] + {node}];
      passed := passed + {runner};
      runner := t.idom[runner];
    }
    assert passed == Below(t, p, stop);
  }

  lemma SelfAncestor(t: Links, p: Node)
    requires Rooted(t) && p in t.idom
    ensures p in Ancestors(t, p)
  {
  }

  lemma AddOne(df: Frontiers, s: set<Node>, node: Node, a: Node)
    requires a in df
    ensures a in AddTo(df, s, node)
    ensures AddTo(df, s, node)[a := AddTo(df, s, node)[a] + {node}] == AddTo(df, s + {a}, node)
  {
  }

  lemma AddMore(df: Frontiers, s: set<Node>, more: set<Node>, node: Node)
    ensures AddTo(AddTo(df, s, node), more, node) == AddTo(df, s + more, node)
  {
  }

  lemma PassedMore(t: Links, preds: seq<Node>, k: nat, stop: Node)
    requires Rooted(t) && stop in t.idom && k < |preds| && preds[k] in t.idom
    ensures Passed(t, preds[..k + 1], stop) == Passed(t, preds[..k], stop) + Below(t, preds[k], stop)
  {
    hide Below;
    assert preds[..k + 1] == preds[..k] + [preds[k]];
    forall a | a in Below(t, preds[k], stop) ensures a in Passed(t, preds[..k + 1], stop) {
      assert preds[k] in preds[..k + 1];
    }
    forall a | a in Passed(t, preds[..k], stop) ensures a in Passed(t, preds[..k + 1], stop) {
      var p :| p in preds[..k] && p in t.idom && a in Below(t, p, stop);
      assert p in preds[..k + 1];
    }
  }

  /** One join: run up from each of its predecessors. */
  method AddJoin(df: Frontiers, t: Links, preds: seq<Node>, stop: Node, node: Node) returns (r: Frontiers)
    requires Rooted(t) && stop in t.idom
    requires forall p :: p in preds ==> p in t.idom && stop in Ancestors(t, p)
    requires forall a :: a in t.idom ==> a in df
    ensures r == AddTo(df, Passed(t, preds, stop), node)
  {
    hide Rooted, Ancestors, Below, Passed;
    r := df;
    NonePassed(df, t, stop, node);
    for k := 0 to |preds|
      invariant r == AddTo(df, Passed(t, preds[..k], stop), node)
    {
      PassedMore(t, preds, k, stop);
      AddMore(df, Passed(t, preds[..k], stop), Below(t, preds[k], stop), node);
      r := RunUp(r, t, preds[k], stop, node);
    }
    assert preds[..|preds|] == preds;
  }

  lemma NonePassed(df: Frontiers, t: Links, stop: Node, node: Node)
    requires Rooted(t) && stop in t.idom
    ensures AddTo(df, Passed(t, [], stop), node) == df
  {
  }

  /** The frontier of `a` as far as the nodes in `done` go. */
  ghost predicate FrontiersOf(g: Graph, df: Frontiers, done: set<Node>) {
    && df.Keys == g.succ.Keys
    && forall a, b :: a in df ==> (b in df[a] <==> b in done && InFrontier(g, a, b))
  }

  /** A node's runners pass exactly the nodes that have it in their frontier. */
  lemma PassedIsFrontier(g: Graph, order: seq<Node>, t: Links, b: Node, a: Node)
    requires Final(g, order, t) && JoinsOk(g) && b in g.succ
    ensures Rooted(t) && b in t.idom && t.idom[b] in t.idom
    ensures a in Passed(t, g.pred[b], t.idom[b]) <==> InFrontier(g, a, b)
  {
    hide Laws, Sweeping, Dominates, Reaches, SearchOrder, Ancestors, Settled;
    FinalFacts(g, order, t, b);
    FinalFacts(g, order, t, g.entry);
    LinkOf(g, order, t, b);
    if b == g.entry {
      assert forall p :: !Edge(g, p, b);
    } else {
      StrictDominators(g, order, t, a, b);
      forall p | Edge(g, p, b) ensures p in g.pred[b] && p in t.idom && (a in Ancestors(t, p) <==> Dominates(g, a, p)) {
        assert Reaches(g, g.entry, p);
        AncestorsAreDominators(g, order, t, a, p);
      }
      forall p | p in g.pred[b] ensures Edge(g, p, b) {
      }
      PassedMeaning(g, t, b, a);
    }
  }

  lemma PassedMeaning(g: Graph, t: Links, b: Node, a: Node)
    requires Rooted(t) && b in t.idom && t.idom[b] in t.idom && b in g.pred
    requires a in Ancestors(t, t.idom[b]) <==> a != b && Dominates(g, a, b)
    requires forall p :: p in g.pred[b] <==> Edge(g, p, b)
    requires forall p :: p in g.pred[b] ==> p in t.idom && (a in Ancestors(t, p) <==> Dominates(g, a, p))
    ensures a in Passed(t, g.pred[b], t.idom[b]) <==> InFrontier(g, a, b)
  {
    hide Rooted, Ancestors, Dominates;
    if a in Passed(t, g.pred[b], t.idom[b]) {
      var p :| p in g.pred[b] && p in t.idom && a in Below(t, p, t.idom[b]);
      assert Edge(g, p, b) && Dominates(g, a, p);
    }
    if InFrontier(g, a, b) {
      var p :| Edge(g, p, b) && Dominates(g, a, p);
      assert p in g.pred[b] && a in Below(t, p, t.idom[b]);
    }
  }

  lemma LinkOf(g: Graph, order: seq<Node>, t: Links, b: Node)
    requires Final(g, order, t) && Reaches(g, g.entry, b)
    ensures Rooted(t) && b in t.idom && t.idom[b] in t.idom
  {
    hide Sweeping, Reaches, Settled;
    FinalFacts(g, order, t, b);
    if b != t.entry {
      RootedAt(t, b);
    }
  }

  /** The chain above a node's link are its strict dominators. */
  lemma StrictDominators(g: Graph, order: seq<Node>, t: Links, a: Node, b: Node)
    requires Final(g, order, t) && Reaches(g, g.entry, b) && b != g.entry
    ensures Rooted(t) && b in t.idom && t.idom[b] in t.idom
    ensures a in Ancestors(t, t.idom[b]) <==> a != b && Dominates(g, a, b)
  {
    hide Sweeping, Reaches, Settled, Dominates, Ancestors;
    FinalFacts(g, order, t, b);
    RootedAt(t, b);
    AncestorsAreDominators(g, order, t, a, b);
    LinkIsAbove(t, b);
  }

  lemma LinkIsAbove(t: Links, b: Node)
    requires Rooted(t) && b in t.idom && b != t.entry && t.idom[b] in t.idom
    ensures b !in Ancestors(t, t.idom[b])
  {
  }

  /** A block with a single predecessor is in no frontier, as the code assumes. */
  lemma SinglePredecessor(g: Graph, order: seq<Node>, t: Links, b: Node)
    requires Final(g, order, t) && JoinsOk(g) && b in g.succ && |g.pred[b]| < 2
    ensures forall a :: !InFrontier(g, a, b)
  {
    hide Laws, Sweeping, Reaches, SearchOrder, Dominates, Ancestors;
    forall a ensures !InFrontier(g, a, b) {
      PassedIsFrontier(g, order, t, b, a);
      if b != g.entry {
        FinalFacts(g, order, t, b);
        if |g.pred[b]| == 1 {
          OnlyPredecessor(g, t, b);
        }
      }
    }
  }

  lemma OnlyPredecessor(g: Graph, t: Links, b: Node)
    requires Rooted(t) && b in g.pred && |g.pred[b]| == 1 && Settled(g, t, b)
    ensures Passed(t, g.pred[b], t.idom[b]) == {}
  {
    hide Rooted, Ancestors, Passed;
    forall a ensures a !in Passed(t, g.pred[b], t.idom[b]) {
      if a in Passed(t, g.pred[b], t.idom[b]) {
        var p := PassedFrom(t, g.pred[b], t.idom[b], a);
        OnlyAbove(t, g.pred[b], p, a);
        assert false;
      }
    }
  }

  lemma PassedFrom(t: Links, preds: seq<Node>, stop: Node, a: Node) returns (p: Node)
    requires Rooted(t) && stop in t.idom && a in Passed(t, preds, stop)
    ensures p in preds && p in t.idom && a in Ancestors(t, p) && a !in Ancestors(t, stop)
  {
    hide Rooted, Ancestors;
    p :| p in preds && p in t.idom && a in Below(t, p, stop);
  }

  lemma OnlyAbove(t: Links, preds: seq<Node>, p: Node, x: Node)
    requires Rooted(t) && |preds| == 1 && p in preds && p in t.idom && x in Ancestors(t, p)
    ensures x in t.idom && Above(t, preds, x)
  {
    hide Rooted;
    AncestorsHaveLinks(t, p);
    assert preds == [p];
  }

  method ComputeDominanceFrontiers(g: Graph, t: Links, ghost order: seq<Node>) returns (df: Frontiers)
    requires Final(g, order, t) && JoinsOk(g)
    ensures df.Keys == g.succ.Keys
    ensures forall a, b :: a in df ==> (b in df[a] <==> b in g.succ && InFrontier(g, a, b))
  {
    hide Final, InFrontier, WellLinked, AllReachable, Ancestors, Passed, Rooted, FrontiersOf, Distinct;
    df := map a | a in g.succ :: {};
    NoFrontiers(g, df);
    var nodes := AnyOrder(g.succ.Keys);
    for k := 0 to |nodes|
      invariant df.Keys == g.succ.Keys && FrontiersOf(g, df, ToSet(nodes[..k]))
    {
      var node := nodes[k];
      PrefixGrows(nodes, k);
      GraphFacts(g, order, t, node);
      if |g.pred[node]| >= 2 {
        var before := df;
        df := AddJoin(df, t, g.pred[node], t.idom[node], node);
        JoinAdded(g, order, t, before, ToSet(nodes[..k]), node);
      } else {
        SinglePredecessor(g, order, t, node);
        NothingAdded(g, df, ToSet(nodes[..k]), node);
      }
    }
    assert nodes[..|nodes|] == nodes;
    FrontiersDone(g, df);
  }

  lemma GraphFacts(g: Graph, order: seq<Node>, t: Links, b: Node)
    requires Final(g, order, t) && JoinsOk(g) && b in g.succ
    ensures b in g.pred && Rooted(t) && b in t.idom && t.idom[b] in t.idom
    ensures forall p :: p in g.pred[b] ==> p in t.idom && t.idom[b] in Ancestors(t, p)
    ensures forall a :: a in t.idom ==> a in g.succ
  {
    hide Reaches, Laws, SearchOrder, Settled;
    LinkOf(g, order, t, b);
    FinalFacts(g, order, t, b);
    if b != g.entry {
      forall p | p in g.pred[b] ensures p in t.idom && t.idom[b] in Ancestors(t, p) {
        assert Edge(g, p, b);
        FinalFacts(g, order, t, p);
        LinkAbovePredecessor(g, t, b, p);
      }
    }
    LinksInside(g, order, t);
  }

  lemma LinkAbovePredecessor(g: Graph, t: Links, b: Node, p: Node)
    requires Rooted(t) && b in g.pred && p in g.pred[b] && p in t.idom && Settled(g, t, b)
    ensures t.idom[b] in Ancestors(t, p)
  {
    assert t.idom[b] in Ancestors(t, t.idom[b]);
    assert Above(t, g.pred[b], t.idom[b]);
  }

  lemma LinksInside(g: Graph, order: seq<Node>, t: Links)
    requires Final(g, order, t)
    ensures forall a :: a in t.idom ==> a in g.succ
  {
    hide Settled, Reaches;
    assert WellLinked(g);
  }

  lemma NoFrontiers(g: Graph, df: Frontiers)
    requires df == map a | a in g.succ :: {}
    ensures FrontiersOf(g, df, ToSet([]))
  {
  }

  lemma JoinAdded(g: Graph, order: seq<Node>, t: Links, df: Frontiers, done: set<Node>, b: Node)
    requires Final(g, order, t) && JoinsOk(g) && b in g.succ && Rooted(t) && b in t.idom && t.idom[b] in t.idom
        && b in g.pred
    requires FrontiersOf(g, df, done)
    ensures FrontiersOf(g, AddTo(df, Passed(t, g.pred[b], t.idom[b]), b), done + {b})
  {
    hide Final, JoinsOk, InFrontier, Passed, Rooted;
    var df' := AddTo(df, Passed(t, g.pred[b], t.idom[b]), b);
    forall a, c | a in df' ensures c in df'[a] <==> c in done + {b} && InFrontier(g, a, c) {
      PassedIsFrontier(g, order, t, b, a);
    }
  }

  lemma NothingAdded(g: Graph, df: Frontiers, done: set<Node>, b: Node)
    requires FrontiersOf(g, df, done) && forall a :: !InFrontier(g, a, b)
    ensures FrontiersOf(g, df, done + {b})
  {
    hide InFrontier;
  }

  lemma FrontiersDone(g: Graph, df: Frontiers)
    requires FrontiersOf(g, df, g.succ.Keys)
    ensures forall a, b :: a in df ==> (b in df[a] <==> b in g.succ && InFrontier(g, a, b))
  {
    hide InFrontier;
  }
}
