/**
 * Dominators (ir/src/ssa_ir.rs): sweeps over the reverse postorder that intersect
 * the ancestors of predecessors until nothing changes. The result is exact: `a` is an
 * ancestor of `b` if and only if every path from the entry to `b` passes through `a`.
 */
module Dominance {
  import opened Wrappers
  import opened Sequences
  import opened Graphs
  import opened Traversal

  /** Every path from the entry to `b` passes through `a`. */
  ghost predicate Dominates(g: Graph, a: Node, b: Node) {
    forall p :: PathBetween(g, p, g.entry, b) ==> a in p
  }

  // ---------------------------------------------------------------------------
  // The tree under construction
  // ---------------------------------------------------------------------------

  /** The `idom` links found so far, and the index of every node in the order. */
  datatype Links = Links(entry: Node, idx: map<Node, nat>, idom: map<Node, Node>)

  /** Links end at the entry because each strictly lowers the index. */
  ghost predicate Rooted(t: Links) {
    && t.entry in t.idom && t.idom[t.entry] == t.entry && t.idom.Keys <= t.idx.Keys
    && forall b :: b in t.idom && b != t.entry ==> t.idom[b] in t.idom && t.idx[t.idom[b]] < t.idx[b]
  }

  ghost predicate Injective(idx: map<Node, nat>) {
    forall a, b :: a in idx && b in idx && idx[a] == idx[b] ==> a == b
  }

  /** The node, its link, the link of that, and so on up to the entry. */
  ghost function Ancestors(t: Links, b: Node): (r: set<Node>)
    requires Rooted(t) && b in t.idom
    ensures b in r && t.entry in r && r <= t.idom.Keys
    ensures forall a :: a in r ==> t.idx[a] <= t.idx[b]
    decreases t.idx[b]
  {
    if b == t.entry then {b} else {b} + Ancestors(t, t.idom[b])
  }

  lemma {:induction false} AncestorsOfAncestor(t: Links, a: Node, b: Node)
    requires Rooted(t) && b in t.idom && a in Ancestors(t, b)
    ensures Ancestors(t, a) <= Ancestors(t, b)
    decreases t.idx[b]
  {
    if a != b {
      AncestorsOfAncestor(t, a, t.idom[b]);
    }
  }

  /** Ancestors form a chain: one that is not below `a` is above it. */
  lemma {:induction false} AncestorsChain(t: Links, a: Node, x: Node, b: Node)
    requires Rooted(t) && b in t.idom && a in Ancestors(t, b) && x in Ancestors(t, b) && t.idx[x] <= t.idx[a]
    requires Injective(t.idx)
    ensures x in Ancestors(t, a)
    decreases t.idx[b]
  {
    if a != b && x != b {
      AncestorsChain(t, a, x, t.idom[b]);
    }
  }

  lemma DeeperIsNotAncestor(t: Links, a: Node, b: Node)
    requires Rooted(t) && a in t.idom && b in t.idom && t.idx[a] > t.idx[b]
    ensures a !in Ancestors(t, b)
    ensures a != t.entry ==> Ancestors(t, a) * Ancestors(t, b) == Ancestors(t, t.idom[a]) * Ancestors(t, b)
  {
  }

  lemma EntryIsLowest(t: Links, b: Node)
    requires Rooted(t) && b in t.idom
    ensures t.idx[t.entry] <= t.idx[b]
  {
    assert t.entry in Ancestors(t, b);
  }

  lemma LinksHaveIndex(t: Links)
    requires Rooted(t)
    ensures t.idom.Keys <= t.idx.Keys
  {
  }

  lemma IndexesDiffer(t: Links, a: Node, b: Node)
    requires Injective(t.idx) && a in t.idx && b in t.idx && a != b
    ensures t.idx[a] != t.idx[b]
  {
  }

  /** Following the link of the deeper node loses no common ancestor. */
  lemma Climb(t: Links, a: Node, b: Node)
    requires Rooted(t) && a in t.idom && b in t.idom && t.idx[a] > t.idx[b]
    ensures t.idom[a] in t.idom && t.idx[t.idom[a]] < t.idx[a]
    ensures Ancestors(t, t.idom[a]) * Ancestors(t, b) == Ancestors(t, a) * Ancestors(t, b)
    ensures Ancestors(t, b) * Ancestors(t, t.idom[a]) == Ancestors(t, b) * Ancestors(t, a)
  {
    EntryIsLowest(t, b);
    DeeperIsNotAncestor(t, a, b);
  }

  /** The two-finger walk finds the deepest common ancestor. It ends because links lower the index. */
  method Intersect(a: Node, b: Node, t: Links) returns (r: Node)
    requires Rooted(t) && Injective(t.idx) && a in t.idom && b in t.idom
    ensures r in t.idom && Ancestors(t, r) == Ancestors(t, a) * Ancestors(t, b)
  {
    hide Rooted, Ancestors, Injective;
    LinksHaveIndex(t);
    var b1, b2 := a, b;
    ghost var common := Ancestors(t, a) * Ancestors(t, b);
    while b1 != b2
      invariant b1 in t.idom && b2 in t.idom
      invariant Ancestors(t, b1) * Ancestors(t, b2) == common
      decreases t.idx[b1] + t.idx[b2]
    {
      ghost var d1, d2 := t.idx[b1], t.idx[b2];
      IndexesDiffer(t, b1, b2);
      while t.idx[b1] > t.idx[b2]
        invariant b1 in t.idom && t.idx[b1] <= d1
        invariant Ancestors(t, b1) * Ancestors(t, b2) == common
        decreases t.idx[b1]
      {
        Climb(t, b1, b2);
        b1 := t.idom[b1];
      }
      while t.idx[b2] > t.idx[b1]
        invariant b2 in t.idom && t.idx[b2] <= d2
        invariant Ancestors(t, b1) * Ancestors(t, b2) == common
        decreases t.idx[b2]
      {
        Climb(t, b2, b1);
        b2 := t.idom[b2];
      }
    }
    r := b1;
  }

  /** An ancestor of every predecessor that has a link already. */
  ghost predicate Above(t: Links, preds: seq<Node>, x: Node)
    requires Rooted(t)
  {
    forall p :: p in preds && p in t.idom ==> x in Ancestors(t, p)
  }

  method ComputeIdom(preds: seq<Node>, t: Links) returns (r: Option<Node>)
    requires Rooted(t) && Injective(t.idx)
    ensures r.None? <==> forall p :: p in preds ==> p !in t.idom
    ensures r.Some? ==> r.value in t.idom && forall x :: x in Ancestors(t, r.value) <==>
        x in t.idom && Above(t, preds, x)
  {
    hide Rooted, Injective, Ancestors;
    r := None;
    var k := 0;
    while k < |preds| && r.None?
      invariant k <= |preds|
      invariant r.None? ==> forall p :: p in preds[..k] ==> p !in t.idom
      invariant r.Some? ==> r.value in preds && r.value in t.idom
    {
      assert preds[..k + 1] == preds[..k] + [preds[k]];
      if preds[k] in t.idom {
        r := Some(preds[k]);
      }
      k := k + 1;
    }
    if r.None? {
      assert preds[..k] == preds;
      return;
    }
    ghost var first := r.value;
    var newIdom := r.value;
    for j := 0 to |preds|
      invariant newIdom in t.idom
      invariant forall x :: x in Ancestors(t, newIdom) <==> x in Ancestors(t, first) && Above(t, preds[..j], x)
    {
      assert preds[..j + 1] == preds[..j] + [preds[j]];
      assert forall x :: Above(t, preds[..j + 1], x) <==>
                         Above(t, preds[..j], x) && (preds[j] in t.idom ==> x in Ancestors(t, preds[j]));
      if preds[j] != newIdom && preds[j] in t.idom {
        newIdom := Intersect(newIdom, preds[j], t);
      }
    }
    assert preds[..|preds|] == preds;
    r := Some(newIdom);
    AncestorsHaveLinks(t, newIdom);
  }

  lemma AncestorsHaveLinks(t: Links, b: Node)
    requires Rooted(t) && b in t.idom
    ensures Ancestors(t, b) <= t.idom.Keys
  {
  }

  // ---------------------------------------------------------------------------
  // How one new link changes the ancestors
  // ---------------------------------------------------------------------------

  function Relink(t: Links, b: Node, d: Node): Links {
    t.(idom := t.idom[b := d])
  }

  lemma RelinkRooted(t: Links, b: Node, d: Node)
    requires Rooted(t) && b in t.idx && b != t.entry && d in t.idom && t.idx[d] < t.idx[b]
    ensures Rooted(Relink(t, b, d))
  {
  }

  lemma {:induction false} UnaffectedAncestors(t: Links, b: Node, d: Node, c: Node)
    requires Rooted(t) && b in t.idx && b != t.entry && d in t.idom && t.idx[d] < t.idx[b]
    requires c in t.idom && b !in Ancestors(t, c)
    ensures Rooted(Relink(t, b, d)) && Ancestors(Relink(t, b, d), c) == Ancestors(t, c)
    decreases t.idx[c]
  {
    RelinkRooted(t, b, d);
    if c != t.entry {
      UnaffectedAncestors(t, b, d, t.idom[c]);
    }
  }

  lemma AncestorsAtRelinked(t: Links, b: Node, d: Node)
    requires Rooted(t) && b in t.idx && b != t.entry && d in t.idom && t.idx[d] < t.idx[b]
    ensures Rooted(Relink(t, b, d)) && Ancestors(Relink(t, b, d), b) == {b} + Ancestors(t, d)
  {
    RelinkRooted(t, b, d);
    UnaffectedAncestors(t, b, d, d);
  }

  /** Below the new link the chain is as before; above it, it is that of the new target. */
  lemma {:induction false} AffectedAncestors(t: Links, b: Node, d: Node, c: Node, x: Node)
    requires Rooted(t) && Injective(t.idx) && b in t.idx && b != t.entry && d in t.idom && t.idx[d] < t.idx[b]
    requires c in t.idom && b in Ancestors(t, c)
    ensures Rooted(Relink(t, b, d))
    ensures x in Ancestors(Relink(t, b, d), c) <==>
            (x in Ancestors(t, c) && t.idx[x] >= t.idx[b]) || x in Ancestors(t, d)
    decreases t.idx[c]
  {
    RelinkRooted(t, b, d);
    AncestorsAtRelinked(t, b, d);
    if c != b {
      AffectedAncestors(t, b, d, t.idom[c], x);
    }
  }

  /** A link that moves up to an ancestor takes nothing new in. */
  lemma AncestorsShrink(t: Links, b: Node, d: Node, c: Node)
    requires Rooted(t) && Injective(t.idx) && b in t.idx && b != t.entry && d in t.idom && t.idx[d] < t.idx[b]
    requires c in t.idom && (b in t.idom ==> d in Ancestors(t, b))
    ensures Rooted(Relink(t, b, d)) && Ancestors(Relink(t, b, d), c) <= Ancestors(t, c)
  {
    RelinkRooted(t, b, d);
    if b in Ancestors(t, c) {
      forall x | x in Ancestors(Relink(t, b, d), c) ensures x in Ancestors(t, c) {
        AffectedAncestors(t, b, d, c, x);
        AncestorsOfAncestor(t, d, b);
        AncestorsOfAncestor(t, b, c);
      }
    } else {
      UnaffectedAncestors(t, b, d, c);
    }
  }

  // ---------------------------------------------------------------------------
  // The invariants of the sweeps
  // ---------------------------------------------------------------------------

  /** Links whose indices come from a search order of the graph. */
  ghost predicate Indexed(g: Graph, order: seq<Node>, t: Links) {
    && WellLinked(g) && SearchOrder(g, order) && t.entry == g.entry
    && t.idx.Keys == ToSet(order) && Injective(t.idx)
    && (forall i :: 0 <= i < |order| ==> order[i] in t.idx && t.idx[order[i]] == i)
  }

  ghost predicate IsForward(g: Graph, idx: map<Node, nat>, f: Node, b: Node) {
    Edge(g, f, b) && f in idx && b in idx && idx[f] < idx[b]
  }

  /** A predecessor that comes before the node in the order. */
  ghost function Forward(g: Graph, idx: map<Node, nat>, b: Node): (f: Node)
    ensures (exists x :: IsForward(g, idx, x, b)) ==> IsForward(g, idx, f, b)
  {
    if exists x :: IsForward(g, idx, x, b) then
      var x: Node :| IsForward(g, idx, x, b);
      x
    else b
  }

  lemma ForwardExists(g: Graph, order: seq<Node>, t: Links, b: Node)
    requires Indexed(g, order, t) && b in t.idx && b != t.entry
    ensures IsForward(g, t.idx, Forward(g, t.idx, b), b) && Forward(g, t.idx, b) in g.pred[b]
  {
    hide Reaches;
    var i :| 0 <= i < |order| && order[i] == b;
    assert ParentEarlier(g, order, i);
    var j :| 0 <= j < i && Edge(g, order[j], order[i]);
    assert IsForward(g, t.idx, order[j], b);
  }

  /**
   * The four things every relinking keeps, node by node, when the sweep is at index i:
   *  - Detour: the link lies on the chain of the forward predecessor, unless the
   *    node is yet to be visited and its link has been passed over already;
   *  - Covered: what is above all predecessors is above the node;
   *  - Strict: whatever strictly dominates the node dominates its link;
   *  - Earlier: nodes get their links in order.
   */
  datatype Law = Detour | Covered | Strict | Earlier

  ghost predicate LawAt(g: Graph, t: Links, i: nat, b: Node, law: Law)
    requires Rooted(t) && b in t.idom && b != t.entry && b in g.pred
  {
    match law
    case Detour =>
      (Forward(g, t.idx, b) in t.idom && t.idom[b] in Ancestors(t, Forward(g, t.idx, b)))
      || t.idx[t.idom[b]] < i <= t.idx[b]
    case Covered => forall x :: x in t.idom && Above(t, g.pred[b], x) ==> x in Ancestors(t, b)
    case Strict => forall a :: a != b && Dominates(g, a, b) ==> Dominates(g, a, t.idom[b])
    case Earlier => forall a :: a in t.idx && t.idx[a] < t.idx[b] ==> a in t.idom
  }

  ghost predicate LawsAt(g: Graph, t: Links, i: nat, b: Node)
    requires Rooted(t)
  {
    b in t.idom && b != t.entry && b in g.pred ==> forall law :: LawAt(g, t, i, b, law)
  }

  ghost predicate Laws(g: Graph, t: Links, i: nat) {
    Rooted(t) && t.idom.Keys <= g.pred.Keys && forall b :: LawsAt(g, t, i, b)
  }

  lemma LawOf(g: Graph, t: Links, i: nat, b: Node, law: Law)
    requires Laws(g, t, i) && b in t.idom && b != t.entry
    ensures b in g.pred && LawAt(g, t, i, b, law)
  {
    assert LawsAt(g, t, i, b);
  }

  // ---------------------------------------------------------------------------
  // Dominance on paths
  // ---------------------------------------------------------------------------

  /** A strict dominator of a node dominates its predecessors. */
  lemma DominatesPredecessor(g: Graph, a: Node, b: Node, p: Node)
    requires WellLinked(g) && Dominates(g, a, b) && a != b && Edge(g, p, b)
    ensures Dominates(g, a, p)
  {
    forall q | PathBetween(g, q, g.entry, p) ensures a in q {
      assert PathBetween(g, q + [b], g.entry, b);
      assert a in q + [b];
    }
  }

  lemma OnlyEntryDominatesEntry(g: Graph, a: Node)
    requires g.entry in g.succ && Dominates(g, a, g.entry)
    ensures a == g.entry
  {
    assert PathBetween(g, [g.entry], g.entry, g.entry);
    assert a in [g.entry];
  }

  /** Dominators are ancestors, at any time. */
  lemma {:induction false} DominatorsAreAncestors(g: Graph, t: Links, i: nat, a: Node, b: Node)
    requires Laws(g, t, i) && t.entry == g.entry && g.entry in g.succ && b in t.idom && Dominates(g, a, b)
    ensures a in Ancestors(t, b)
    decreases t.idx[b]
  {
    if b == t.entry {
      OnlyEntryDominatesEntry(g, a);
    } else if a != b {
      LawOf(g, t, i, b, Strict);
      DominatorsAreAncestors(g, t, i, a, t.idom[b]);
    }
  }

  /** Walking up from x, a dominator of x that is not yet passed dominates where we are. */
  lemma {:induction false} DominatesOnTheWay(g: Graph, t: Links, i: nat, a: Node, x: Node, d: Node)
    requires Laws(g, t, i) && x in t.idom && Dominates(g, a, x)
    requires d in Ancestors(t, x) && a in Ancestors(t, d)
    ensures Dominates(g, a, d)
    decreases t.idx[x]
  {
    if d != x {
      assert t.idx[a] <= t.idx[d] <= t.idx[t.idom[x]] < t.idx[x];
      LawOf(g, t, i, x, Strict);
      DominatesOnTheWay(g, t, i, a, t.idom[x], d);
    }
  }

  // ---------------------------------------------------------------------------
  // Relinking keeps the laws
  // ---------------------------------------------------------------------------

  /** Node b, at index i, is linked to d; a link it had moves up. */
  ghost predicate Step(t: Links, i: nat, b: Node, d: Node) {
    && Rooted(t) && Injective(t.idx) && b in t.idx && t.idx[b] == i && b != t.entry
    && d in t.idom && t.idx[d] < i && (b in t.idom ==> d in Ancestors(t, b))
  }

  lemma StepRooted(t: Links, i: nat, b: Node, d: Node)
    requires Step(t, i, b, d)
    ensures Rooted(t) && Rooted(Relink(t, b, d))
  {
    RelinkRooted(t, b, d);
  }

  lemma RootedAt(t: Links, c: Node)
    requires Rooted(t) && c in t.idom && c != t.entry
    ensures c in t.idx && t.idom[c] in t.idom && t.idom[c] in t.idx && t.idx[t.idom[c]] < t.idx[c]
    ensures Ancestors(t, c) == {c} + Ancestors(t, t.idom[c])
  {
  }

  lemma StepShrinks(t: Links, i: nat, b: Node, d: Node, preds: seq<Node>, x: Node)
    requires Step(t, i, b, d) && Rooted(Relink(t, b, d)) && Above(Relink(t, b, d), preds, x)
    ensures Above(t, preds, x)
  {
    forall p | p in preds && p in t.idom ensures x in Ancestors(t, p) {
      AncestorsShrink(t, b, d, p);
    }
  }

  lemma KeepsDetourHere(g: Graph, t: Links, i: nat, b: Node, d: Node)
    requires Step(t, i, b, d) && b in g.pred
    requires var f := Forward(g, t.idx, b); f in t.idom && t.idx[f] < i && d in Ancestors(t, f)
    ensures Rooted(Relink(t, b, d)) && LawAt(g, Relink(t, b, d), i + 1, b, Detour)
  {
    hide Injective, Forward;
    UnaffectedAncestors(t, b, d, Forward(g, t.idx, b));
  }

  lemma KeepsDetourElsewhere(g: Graph, t: Links, i: nat, b: Node, d: Node, c: Node)
    requires Step(t, i, b, d) && c in t.idom && c != t.entry && c != b && c in g.pred
    requires IsForward(g, t.idx, Forward(g, t.idx, c), c) && LawAt(g, t, i, c, Detour)
    ensures Rooted(Relink(t, b, d)) && LawAt(g, Relink(t, b, d), i + 1, c, Detour)
  {
    hide Forward, Edge, Ancestors;
    StepRooted(t, i, b, d);
    RootedAt(t, c);
    var fc, up := Forward(g, t.idx, c), t.idom[c];
    IndexesDiffer(t, b, c);
    if fc in t.idom && up in Ancestors(t, fc) {
      if b in Ancestors(t, fc) {
        AffectedAncestors(t, b, d, fc, up);
        NotDeeper(t, b, fc);
      } else {
        UnaffectedAncestors(t, b, d, fc);
      }
    }
  }

  lemma NotDeeper(t: Links, a: Node, b: Node)
    requires Rooted(t) && b in t.idom && a in Ancestors(t, b)
    ensures a in t.idx && t.idx[a] <= t.idx[b]
  {
  }

  /** d has exactly the ancestors common to the linked predecessors of b. */
  ghost predicate Meets(t: Links, preds: seq<Node>, d: Node)
    requires Rooted(t)
  {
    d in t.idom && forall x :: x in Ancestors(t, d) <==> x in t.idom && Above(t, preds, x)
  }

  lemma KeepsCoveredHere(g: Graph, t: Links, i: nat, b: Node, d: Node, f: Node)
    requires Step(t, i, b, d) && b in g.pred && Meets(t, g.pred[b], d)
    requires f in g.pred[b] && f in t.idom
    ensures Rooted(Relink(t, b, d)) && LawAt(g, Relink(t, b, d), i + 1, b, Covered)
  {
    hide Injective, Above;
    var t' := Relink(t, b, d);
    AncestorsAtRelinked(t, b, d);
    forall x | x in t'.idom && Above(t', g.pred[b], x) ensures x in Ancestors(t', b) {
      StepShrinks(t, i, b, d, g.pred[b], x);
      AboveOne(t, g.pred[b], f, x);
    }
  }

  lemma AboveOne(t: Links, preds: seq<Node>, p: Node, x: Node)
    requires Rooted(t) && Above(t, preds, x) && p in preds && p in t.idom
    ensures x in Ancestors(t, p) && x in t.idom
  {
  }

  lemma KeepsCoveredElsewhere(g: Graph, t: Links, i: nat, b: Node, d: Node, c: Node, fc: Node)
    requires Step(t, i, b, d) && c in t.idom && c != t.entry && c != b && c in g.pred
    requires fc == Forward(g, t.idx, c) && fc in g.pred[c] && fc in t.idom
    requires LawAt(g, t, i, c, Covered) && LawAt(g, t, i, c, Detour)
    ensures Rooted(Relink(t, b, d)) && LawAt(g, Relink(t, b, d), i + 1, c, Covered)
  {
    hide Injective, Above, Forward;
    var t' := Relink(t, b, d);
    StepRooted(t, i, b, d);
    forall x | x in t'.idom && Above(t', g.pred[c], x) ensures x in Ancestors(t', c) {
      AboveOne(t', g.pred[c], fc, x);
      StepShrinks(t, i, b, d, g.pred[c], x);
      AboveOne(t, g.pred[c], fc, x);
      StillCovered(t, i, b, d, c, fc, x);
    }
  }

  lemma StillCovered(t: Links, i: nat, b: Node, d: Node, c: Node, fc: Node, x: Node)
    requires Step(t, i, b, d) && Rooted(Relink(t, b, d)) && c in t.idom && c != t.entry && c != b && fc in t.idom
    requires x in Ancestors(t, c) && x in Ancestors(Relink(t, b, d), fc)
    requires t.idom[c] in t.idom && t.idom[c] in t.idx && c in t.idx
    requires t.idom[c] in Ancestors(t, fc) || t.idx[t.idom[c]] < i <= t.idx[c]
    ensures x in Ancestors(Relink(t, b, d), c)
  {
    hide Injective;
    if b in Ancestors(t, c) {
      RootedAt(t, c);
      NotDeeper(t, b, t.idom[c]);
      AncestorsOfAncestor(t, t.idom[c], fc);
      AffectedAncestors(t, b, d, c, x);
      AffectedAncestors(t, b, d, fc, x);
    } else {
      UnaffectedAncestors(t, b, d, c);
    }
  }

  lemma KeepsStrictHere(g: Graph, t: Links, i: nat, b: Node, d: Node, f: Node)
    requires Step(t, i, b, d) && b in g.pred && Meets(t, g.pred[b], d) && Laws(g, t, i)
    requires WellLinked(g) && t.entry == g.entry
    requires f in g.pred[b] && f in t.idom && d in Ancestors(t, f)
    ensures Rooted(Relink(t, b, d)) && LawAt(g, Relink(t, b, d), i + 1, b, Strict)
  {
    hide Dominates, Injective, Ancestors, LawsAt, Rooted;
    StepRooted(t, i, b, d);
    forall a | a != b && Dominates(g, a, b) ensures Dominates(g, a, d) {
      forall p | p in g.pred[b] && p in t.idom ensures a in Ancestors(t, p) && Dominates(g, a, p) {
        assert Edge(g, p, b);
        DominatesPredecessor(g, a, b, p);
        DominatorsAreAncestors(g, t, i, a, p);
      }
      AncestorsHaveLinks(t, f);
      assert a in Ancestors(t, d);
      DominatesOnTheWay(g, t, i, a, f, d);
    }
  }

  // ---------------------------------------------------------------------------
  // One visit
  // ---------------------------------------------------------------------------

  /** The sweep is at node b = order[i], all earlier nodes are linked, and d is what `ComputeIdom` found. */
  ghost predicate Visiting(g: Graph, order: seq<Node>, t: Links, i: nat, b: Node, d: Node) {
    && Indexed(g, order, t) && Laws(g, t, i) && 0 < i < |order| && order[i] == b
    && (forall a :: a in t.idx && t.idx[a] < i ==> a in t.idom)
    && b in g.pred && Meets(t, g.pred[b], d)
  }

  lemma VisitFacts(g: Graph, order: seq<Node>, t: Links, i: nat, b: Node, d: Node) returns (f: Node)
    requires Visiting(g, order, t, i, b, d)
    ensures Step(t, i, b, d) && b in g.pred && Meets(t, g.pred[b], d) && WellLinked(g) && t.entry == g.entry
    ensures f == Forward(g, t.idx, b) && f in g.pred[b] && f in t.idom && t.idx[f] < i && d in Ancestors(t, f)
  {
    hide Reaches, LawsAt, Forward;
    EntryFirst(g, order, t, i);
    ForwardExists(g, order, t, b);
    f := Forward(g, t.idx, b);
    assert Above(t, g.pred[b], d);
    NotDeeper(t, d, f);
    if b in t.idom {
      LawOf(g, t, i, b, Covered);
    }
  }

  lemma EntryFirst(g: Graph, order: seq<Node>, t: Links, i: nat)
    requires Indexed(g, order, t) && 0 < i < |order|
    ensures order[i] != t.entry
  {
    hide Reaches, WellLinked;
  }

  lemma LawsHere(g: Graph, order: seq<Node>, t: Links, i: nat, b: Node, d: Node)
    requires Visiting(g, order, t, i, b, d)
    ensures Rooted(Relink(t, b, d)) && LawsAt(g, Relink(t, b, d), i + 1, b)
  {
    hide Visiting, Step, Meets, Laws, LawAt, WellLinked, Forward;
    var f := VisitFacts(g, order, t, i, b, d);
    VisitLaws(g, order, t, i, b, d);
    StepRooted(t, i, b, d);
    KeepsDetourHere(g, t, i, b, d);
    KeepsCoveredHere(g, t, i, b, d, f);
    KeepsStrictHere(g, t, i, b, d, f);
    KeepsEarlierHere(g, order, t, i, b, d);
    AllLaws(g, Relink(t, b, d), i + 1, b);
  }

  lemma VisitLaws(g: Graph, order: seq<Node>, t: Links, i: nat, b: Node, d: Node)
    requires Visiting(g, order, t, i, b, d)
    ensures Laws(g, t, i) && b != t.entry
  {
    EntryFirst(g, order, t, i);
  }

  lemma AllLaws(g: Graph, t: Links, i: nat, b: Node)
    requires Rooted(t) && b in t.idom && b != t.entry && b in g.pred
    requires LawAt(g, t, i, b, Detour) && LawAt(g, t, i, b, Covered) && LawAt(g, t, i, b, Strict)
        && LawAt(g, t, i, b, Earlier)
    ensures LawsAt(g, t, i, b)
  {
    hide LawAt, Rooted;
    forall law ensures LawAt(g, t, i, b, law) {
      match law
      case Detour =>
      case Covered =>
      case Strict =>
      case Earlier =>
    }
  }

  lemma KeepsEarlierHere(g: Graph, order: seq<Node>, t: Links, i: nat, b: Node, d: Node)
    requires Visiting(g, order, t, i, b, d) && b != t.entry && Rooted(Relink(t, b, d))
    ensures LawAt(g, Relink(t, b, d), i + 1, b, Earlier)
  {
    hide Laws, SearchOrder, Dominates, Rooted, Meets, WellLinked, Injective;
  }

  lemma LawsElsewhere(g: Graph, order: seq<Node>, t: Links, i: nat, b: Node, d: Node, c: Node)
    requires Visiting(g, order, t, i, b, d) && c != b
    ensures Rooted(Relink(t, b, d)) && LawsAt(g, Relink(t, b, d), i + 1, c)
  {
    hide Visiting, Step, Meets, Laws, LawAt, WellLinked, Forward, Rooted, Ancestors;
    var f := VisitFacts(g, order, t, i, b, d);
    VisitLaws(g, order, t, i, b, d);
    StepRooted(t, i, b, d);
    if c in t.idom && c != t.entry && c in g.pred {
      var fc := ForwardLinked(g, order, t, i, b, d, c);
      LawsOfOther(g, t, i, b, d, c, fc);
    }
  }

  lemma LawsOfOther(g: Graph, t: Links, i: nat, b: Node, d: Node, c: Node, fc: Node)
    requires Step(t, i, b, d) && Laws(g, t, i) && c in t.idom && c != t.entry && c != b && c in g.pred
    requires fc == Forward(g, t.idx, c) && IsForward(g, t.idx, fc, c) && fc in g.pred[c] && fc in t.idom
    ensures Rooted(Relink(t, b, d)) && LawsAt(g, Relink(t, b, d), i + 1, c)
  {
    hide Step, Laws, LawAt, Forward, Ancestors, Rooted;
    StepRooted(t, i, b, d);
    LawOf(g, t, i, c, Detour);
    LawOf(g, t, i, c, Covered);
    LawOf(g, t, i, c, Strict);
    LawOf(g, t, i, c, Earlier);
    KeepsDetourElsewhere(g, t, i, b, d, c);
    KeepsCoveredElsewhere(g, t, i, b, d, c, fc);
    KeepsRest(g, t, i, b, d, c);
    AllLaws(g, Relink(t, b, d), i + 1, c);
  }

  lemma ForwardLinked(g: Graph, order: seq<Node>, t: Links, i: nat, b: Node, d: Node, c: Node) returns (fc: Node)
    requires Visiting(g, order, t, i, b, d) && c in t.idom && c != t.entry && c in g.pred
    ensures fc == Forward(g, t.idx, c) && IsForward(g, t.idx, fc, c) && fc in g.pred[c] && fc in t.idom
  {
    hide Dominates, Meets, LawsAt, SearchOrder, WellLinked, Forward;
    fc := Forward(g, t.idx, c);
    ForwardExists(g, order, t, c);
    LawOf(g, t, i, c, Earlier);
  }

  lemma KeepsRest(g: Graph, t: Links, i: nat, b: Node, d: Node, c: Node)
    requires Rooted(t) && Rooted(Relink(t, b, d)) && c in t.idom && c != b && c != t.entry && c in g.pred
    requires LawAt(g, t, i, c, Strict) && LawAt(g, t, i, c, Earlier)
    ensures LawAt(g, Relink(t, b, d), i + 1, c, Strict) && LawAt(g, Relink(t, b, d), i + 1, c, Earlier)
  {
    hide Rooted, Dominates;
  }

  /** One visit keeps every law, whether it changes the link or not. A changed link moves up. */
  lemma VisitKeeps(g: Graph, order: seq<Node>, t: Links, i: nat, b: Node, d: Node)
    requires Visiting(g, order, t, i, b, d)
    ensures Laws(g, Relink(t, b, d), i + 1)
    ensures b in t.idx && d in t.idx && t.idx[d] < i
    ensures b in t.idom && t.idom[b] != d ==> t.idom[b] in t.idx && t.idx[d] < t.idx[t.idom[b]]
  {
    hide Visiting, LawsAt, Step, Meets;
    var f := VisitFacts(g, order, t, i, b, d);
    VisitLaws(g, order, t, i, b, d);
    StepRooted(t, i, b, d);
    StepMovesUp(t, i, b, d);
    var t', next := Relink(t, b, d), i + 1;
    forall c ensures LawsAt(g, t', next, c) {
      if c == b {
        LawsHere(g, order, t, i, b, d);
      } else {
        LawsElsewhere(g, order, t, i, b, d, c);
      }
    }
  }

  lemma StepMovesUp(t: Links, i: nat, b: Node, d: Node)
    requires Step(t, i, b, d)
    ensures b in t.idx && d in t.idx && t.idx[d] < i
    ensures b in t.idom && t.idom[b] != d ==> t.idom[b] in t.idx && t.idx[d] < t.idx[t.idom[b]]
  {
    if b in t.idom {
      RootedAt(t, b);
    }
  }

  // ---------------------------------------------------------------------------
  // The sweeps
  // ---------------------------------------------------------------------------

  /** What a node adds to the measure: the index of its link, or more than any index. */
  function NodeWeight(order: seq<Node>, t: Links, b: Node): nat {
    if b in t.idom && t.idom[b] in t.idx then t.idx[t.idom[b]] else |order|
  }

  function Weight(order: seq<Node>, t: Links, k: nat): nat
    requires k <= |order|
  {
    if k == 0 then 0 else Weight(order, t, k - 1) + NodeWeight(order, t, order[k - 1])
  }

  lemma {:induction false} WeightFalls(order: seq<Node>, t: Links, t': Links, i: nat, k: nat)
    requires i < |order| && k <= |order|
    requires forall j :: 0 <= j < |order| && j != i ==>
        NodeWeight(order, t', order[j]) == NodeWeight(order, t, order[j])
    requires NodeWeight(order, t', order[i]) < NodeWeight(order, t, order[i])
    ensures Weight(order, t', k) <= Weight(order, t, k)
    ensures k > i ==> Weight(order, t', k) < Weight(order, t, k)
  {
    hide NodeWeight;
    if k > 0 {
      WeightFalls(order, t, t', i, k - 1);
    }
  }

  lemma RelinkWeighsLess(g: Graph, order: seq<Node>, t: Links, i: nat, d: Node)
    requires Indexed(g, order, t) && Rooted(t) && 0 < i < |order| && d in t.idx && t.idx[d] < i
    requires order[i] in t.idom ==> t.idom[order[i]] in t.idx && t.idx[d] < t.idx[t.idom[order[i]]]
    ensures Weight(order, Relink(t, order[i], d), |order|) < Weight(order, t, |order|)
  {
    hide Weight, Reaches, WellLinked;
    WeightFalls(order, t, Relink(t, order[i], d), i, |order|);
  }

  /** The node is linked, and its link has exactly the ancestors common to its predecessors. */
  ghost predicate Settled(g: Graph, t: Links, b: Node)
    requires Rooted(t)
  {
    b in t.idom && b in g.pred && t.idom[b] in t.idom && Meets(t, g.pred[b], t.idom[b])
  }

  /** Between two visits of a sweep. */
  ghost predicate Sweeping(g: Graph, order: seq<Node>, t: Links, i: nat) {
    && Indexed(g, order, t) && Laws(g, t, i) && 1 <= i <= |order|
    && forall j :: 0 <= j < i ==> order[j] in t.idom
  }

  lemma SweepStarts(g: Graph, order: seq<Node>, t: Links)
    requires Indexed(g, order, t) && t.idom == map[t.entry := t.entry]
    ensures Sweeping(g, order, t, 1)
  {
    hide Reaches;
    assert order[0] in ToSet(order);
    forall b ensures LawsAt(g, t, 1, b) {
    }
    EntryInside(g);
  }

  lemma EntryInside(g: Graph)
    requires WellLinked(g)
    ensures g.entry in g.succ && g.entry in g.pred
  {
  }

  /** A finished sweep may start over: links that were passed over have been visited. */
  lemma SweepRestarts(g: Graph, order: seq<Node>, t: Links)
    requires Sweeping(g, order, t, |order|)
    ensures Sweeping(g, order, t, 1)
  {
    hide Reaches, WellLinked, Dominates, Ancestors, Above;
    forall b ensures LawsAt(g, t, 1, b) {
      if b in t.idom && b != t.entry && b in g.pred {
        assert b in ToSet(order);
        forall law ensures LawAt(g, t, 1, b, law) {
          LawOf(g, t, |order|, b, law);
        }
      }
    }
  }

  lemma VisitStarts(g: Graph, order: seq<Node>, t: Links, i: nat, r: Option<Node>)
    requires Sweeping(g, order, t, i) && i < |order|
    requires order[i] in g.pred && (r.None? <==> forall p :: p in g.pred[order[i]] ==> p !in t.idom)
    requires r.Some? ==> Meets(t, g.pred[order[i]], r.value)
    ensures r.Some? && Visiting(g, order, t, i, order[i], r.value)
  {
    hide Reaches, WellLinked, LawsAt, Meets, Forward;
    EntryFirst(g, order, t, i);
    assert order[i] in ToSet(order);
    ForwardExists(g, order, t, order[i]);
    var f := Forward(g, t.idx, order[i]);
    Positions(g, order, t);
    assert order[t.idx[f]] in t.idom;
  }

  lemma Positions(g: Graph, order: seq<Node>, t: Links)
    requires Indexed(g, order, t)
    ensures forall a :: a in t.idx ==> t.idx[a] < |order| && order[t.idx[a]] == a
  {
    hide SearchOrder, WellLinked;
    forall a | a in t.idx ensures t.idx[a] < |order| && order[t.idx[a]] == a {
      assert a in ToSet(order);
    }
  }

  lemma SweepGoesOn(g: Graph, order: seq<Node>, t: Links, i: nat, d: Node)
    requires Sweeping(g, order, t, i) && i < |order| && Visiting(g, order, t, i, order[i], d)
    ensures Sweeping(g, order, Relink(t, order[i], d), i + 1)
  {
    hide Laws, Visiting, SearchOrder, WellLinked;
    VisitKeeps(g, order, t, i, order[i], d);
  }

  lemma ChangeWeighsLess(g: Graph, order: seq<Node>, t: Links, i: nat, d: Node)
    requires Sweeping(g, order, t, i) && i < |order| && Visiting(g, order, t, i, order[i], d)
    requires !(order[i] in t.idom && t.idom[order[i]] == d)
    ensures Weight(order, Relink(t, order[i], d), |order|) < Weight(order, t, |order|)
  {
    hide Laws, Weight, Indexed, Visiting;
    VisitKeeps(g, order, t, i, order[i], d);
    VisitLaws(g, order, t, i, order[i], d);
    LawsRooted(g, t, i);
    RelinkWeighsLess(g, order, t, i, d);
  }

  lemma NoChangeSettles(g: Graph, order: seq<Node>, t: Links, i: nat, d: Node)
    requires i < |order| && Visiting(g, order, t, i, order[i], d) && Rooted(t)
    requires order[i] in t.idom && t.idom[order[i]] == d
    ensures Relink(t, order[i], d) == t && Settled(g, t, order[i])
  {
    hide Laws, Indexed;
    assert t.idom[order[i] := d] == t.idom;
  }

  lemma LawsRooted(g: Graph, t: Links, i: nat)
    requires Laws(g, t, i)
    ensures Rooted(t)
  {
  }

  /** Where no sweep changes anything, the links are final. */
  ghost predicate Final(g: Graph, order: seq<Node>, t: Links) {
    && Sweeping(g, order, t, |order|) && Rooted(t)
    && forall j :: 0 < j < |order| ==> Settled(g, t, order[j])
  }

  /** Visit the node at index i: link it to the deepest common ancestor of its linked predecessors. */
  method Visit(g: Graph, order: seq<Node>, t0: Links, i: nat) returns (t: Links, changed: bool)
    requires Sweeping(g, order, t0, i) && i < |order|
    ensures Sweeping(g, order, t, i + 1)
    ensures !changed ==> t == t0 && Rooted(t) && Settled(g, t, order[i])
    ensures changed ==> Weight(order, t, |order|) < Weight(order, t0, |order|)
  {
    hide WellLinked, Sweeping, Weight, Settled, Visiting, Injective, Rooted, Meets, Relink, Ancestors, Above;
    t, changed := t0, false;
    var b := order[i];
    SweepFacts(g, order, t, i);
    var newIdom := ComputeIdom(g.pred[b], t);
    MeetsOf(t, g.pred[b], newIdom);
    VisitStarts(g, order, t, i, newIdom);
    SweepGoesOn(g, order, t, i, newIdom.value);
    if b !in t.idom || t.idom[b] != newIdom.value {
      ChangeWeighsLess(g, order, t, i, newIdom.value);
      RelinkIs(t, b, newIdom.value);
      t := t.(idom := t.idom[b := newIdom.value]);
      changed := true;
    } else {
      NoChangeSettles(g, order, t, i, newIdom.value);
    }
  }

  /** One sweep over the order: it keeps everything, and a change lowers the measure. */
  method Sweep(g: Graph, order: seq<Node>, t0: Links) returns (t: Links, changed: bool)
    requires Sweeping(g, order, t0, 1)
    ensures Sweeping(g, order, t, |order|)
    ensures !changed ==> t == t0 && Rooted(t) && forall j :: 0 < j < |order| ==> Settled(g, t, order[j])
    ensures changed ==> Weight(order, t, |order|) < Weight(order, t0, |order|)
  {
    hide Sweeping, Weight, Settled, Rooted;
    t, changed := t0, false;
    SweepFacts(g, order, t, 1);
    var i := 1;
    while i < |order|
      invariant 1 <= i <= |order| && Sweeping(g, order, t, i)
      invariant !changed ==> t == t0 && Rooted(t) && forall j :: 0 < j < i ==> Settled(g, t, order[j])
      invariant changed ==> Weight(order, t, |order|) < Weight(order, t0, |order|)
    {
      var moved;
      t, moved := Visit(g, order, t, i);
      changed := changed || moved;
      i := i + 1;
    }
  }

  lemma RelinkIs(t: Links, b: Node, d: Node)
    ensures Relink(t, b, d) == t.(idom := t.idom[b := d])
  {
  }

  method ComputeDominance(g: Graph) returns (t: Links, ghost order: seq<Node>)
    requires WellLinked(g)
    ensures Final(g, order, t)
    ensures TreeIsExact(g, t)
  {
    hide WellLinked, Sweeping, Weight, Settled, Injective, Rooted, SearchOrder, Indexed, TreeIsExact;
    var rpo := ReversePostOrder(g);
    order := rpo;
    OrderFacts(g, rpo);
    var idx := RpoIndices(rpo);
    t := Links(g.entry, idx, map[g.entry := g.entry]);
    IndicesIndexed(g, rpo, t);
    SweepStarts(g, rpo, t);
    var changed := true;
    while changed
      invariant Sweeping(g, rpo, t, 1)
      invariant !changed ==> Final(g, rpo, t)
      decreases Weight(rpo, t, |rpo|), changed
    {
      t, changed := Sweep(g, rpo, t);
      SweepRestarts(g, rpo, t);
    }
    ExactTree(g, rpo, t);
  }

  /** The links form a tree in which the ancestors of a reachable node are its dominators. */
  ghost predicate TreeIsExact(g: Graph, t: Links) {
    && Rooted(t)
    && (forall b :: Reaches(g, g.entry, b) ==> b in t.idom)
    && (forall a, b {:trigger Dominates(g, a, b)} :: Reaches(g, g.entry, b) ==>
        (a in Ancestors(t, b) <==> Dominates(g, a, b)))
  }

  lemma ExactTree(g: Graph, order: seq<Node>, t: Links)
    requires Final(g, order, t)
    ensures TreeIsExact(g, t)
  {
    hide Final, Reaches, Ancestors, Dominates, Rooted;
    EntryReached(g, order, t);
    AncestorsAreDominators(g, order, t, g.entry, g.entry);
    forall b | Reaches(g, g.entry, b) ensures b in t.idom {
      AncestorsAreDominators(g, order, t, b, b);
    }
    forall a, b {:trigger Dominates(g, a, b)} | Reaches(g, g.entry, b)
      ensures a in Ancestors(t, b) <==> Dominates(g, a, b)
    {
      AncestorsAreDominators(g, order, t, a, b);
    }
  }

  lemma EntryReached(g: Graph, order: seq<Node>, t: Links)
    requires Final(g, order, t)
    ensures Reaches(g, g.entry, g.entry)
  {
    hide Laws, Settled;
    ReachesItself(g, g.entry);
  }

  lemma SweepFacts(g: Graph, order: seq<Node>, t: Links, i: nat)
    requires Sweeping(g, order, t, i)
    ensures 1 <= i <= |order| && Rooted(t) && Injective(t.idx) && (i < |order| ==> order[i] in g.pred)
  {
    hide Reaches, LawsAt;
    assert WellLinked(g);
    if i < |order| {
      assert order[i] in order;
    }
  }

  lemma MeetsOf(t: Links, preds: seq<Node>, r: Option<Node>)
    requires Rooted(t)
    requires r.Some? ==> r.value in t.idom && forall x :: x in Ancestors(t, r.value) <==>
        x in t.idom && Above(t, preds, x)
    ensures r.Some? ==> Meets(t, preds, r.value)
  {
  }

  method RpoIndices(order: seq<Node>) returns (idx: map<Node, nat>)
    requires Distinct(order)
    ensures idx.Keys == ToSet(order) && forall i :: 0 <= i < |order| ==> order[i] in idx && idx[order[i]] == i
  {
    idx := map[];
    for i := 0 to |order|
      invariant idx.Keys == ToSet(order[..i]) && forall j :: 0 <= j < i ==> order[j] in idx && idx[order[j]] == j
    {
      PrefixGrows(order, i);
      idx := idx[order[i] := i];
    }
    assert order[..|order|] == order;
  }

  lemma IndicesIndexed(g: Graph, order: seq<Node>, t: Links)
    requires WellLinked(g) && SearchOrder(g, order) && t.entry == g.entry && t.idx.Keys == ToSet(order)
    requires forall i :: 0 <= i < |order| ==> order[i] in t.idx && t.idx[order[i]] == i
    ensures Indexed(g, order, t)
  {
    hide WellLinked, SearchOrder;
    forall a, b | a in t.idx && b in t.idx && t.idx[a] == t.idx[b] ensures a == b {
      assert a in ToSet(order) && b in ToSet(order);
      var i :| 0 <= i < |order| && order[i] == a;
      var j :| 0 <= j < |order| && order[j] == b;
    }
  }

  lemma OrderFacts(g: Graph, order: seq<Node>)
    requires SearchOrder(g, order)
    ensures Distinct(order) && |order| >= 1
  {
    hide Reaches;
  }

  // ---------------------------------------------------------------------------
  // Ancestors are dominators
  // ---------------------------------------------------------------------------

  lemma FinalFacts(g: Graph, order: seq<Node>, t: Links, b: Node)
    requires Final(g, order, t) && Reaches(g, g.entry, b)
    ensures WellLinked(g) && Rooted(t) && t.entry == g.entry && b in t.idom && (b != g.entry ==> Settled(g, t, b))
  {
    hide Laws, Settled, Reaches, WellLinked;
    var j :| 0 <= j < |order| && order[j] == b;
    assert j == 0 ==> b == g.entry;
  }

  lemma {:induction false} AncestorsOnPath(g: Graph, order: seq<Node>, t: Links, p: seq<Node>, b: Node)
    requires Final(g, order, t) && PathBetween(g, p, g.entry, b)
    ensures Rooted(t) && b in t.idom && forall a :: a in Ancestors(t, b) ==> a in p
    decreases |p|
  {
    hide Final, Settled;
    assert Reaches(g, g.entry, b);
    FinalFacts(g, order, t, b);
    if b != g.entry {
      var q := p[..|p| - 1];
      var y := q[|q| - 1];
      assert PathBetween(g, q, g.entry, y);
      AncestorsOnPath(g, order, t, q, y);
      assert Edge(g, y, b);
      LinkAboveEdge(g, t, y, b);
      assert p == q + [b];
    }
  }

  lemma LinkAboveEdge(g: Graph, t: Links, y: Node, b: Node)
    requires WellLinked(g) && Rooted(t) && Settled(g, t, b) && b != t.entry && y in t.idom && Edge(g, y, b)
    ensures Ancestors(t, b) <= {b} + Ancestors(t, y)
  {
    assert y in g.pred[b];
  }

  /**
   * The links are exact: a is an ancestor of a reachable node b if and only if
   * every path from the entry to b passes through a.
   */
  lemma AncestorsAreDominators(g: Graph, order: seq<Node>, t: Links, a: Node, b: Node)
    requires Final(g, order, t) && Reaches(g, g.entry, b)
    ensures Rooted(t) && b in t.idom && (a in Ancestors(t, b) <==> Dominates(g, a, b))
  {
    hide Laws, WellLinked, Settled, Reaches, Ancestors, Dominates;
    FinalFacts(g, order, t, b);
    EntryInside(g);
    if Dominates(g, a, b) {
      DominatorsAreAncestors(g, t, |order|, a, b);
    }
    if a in Ancestors(t, b) {
      AncestorDominates(g, order, t, a, b);
    }
  }

  lemma AncestorDominates(g: Graph, order: seq<Node>, t: Links, a: Node, b: Node)
    requires Final(g, order, t) && Rooted(t) && b in t.idom && a in Ancestors(t, b)
    ensures Dominates(g, a, b)
  {
    hide Final;
    forall p | PathBetween(g, p, g.entry, b) ensures a in p {
      AncestorsOnPath(g, order, t, p, b);
    }
  }

  /** `DominanceInfo::dominates`: walk up from `dominated` until `dominator` or the entry. */
  method IsDominator(g: Graph, ghost order: seq<Node>, t: Links, dominator: Node, dominated: Node) returns (r: bool)
    requires Final(g, order, t) && Reaches(g, g.entry, dominated)
    ensures r <==> Dominates(g, dominator, dominated)
  {
    hide Final, Rooted, Ancestors, Dominates, Reaches;
    AncestorsAreDominators(g, order, t, dominator, dominated);
    FinalFacts(g, order, t, dominated);
    SelfDominates(g, dominated);
    if dominator == dominated {
      return true;
    }
    var current := dominated;
    WalkBegins(t, dominated, dominator);
    while current in t.idom
      invariant current in t.idom && current in t.idx && dominator != current
      invariant dominator in Ancestors(t, current) <==> dominator in Ancestors(t, dominated)
      decreases t.idx[current]
    {
      var idom := t.idom[current];
      WalkUp(t, current, dominator);
      if idom == dominator {
        return true;
      }
      if idom == current {
        break;
      }
      current := idom;
    }
    r := false;
  }

  lemma SelfDominates(g: Graph, b: Node)
    ensures Dominates(g, b, b)
  {
  }

  lemma WalkBegins(t: Links, b: Node, a: Node)
    requires Rooted(t) && b in t.idom
    ensures b in t.idx
  {
  }

  lemma WalkUp(t: Links, b: Node, a: Node)
    requires Rooted(t) && b in t.idom && a != b
    ensures b in t.idx && t.idom[b] in t.idom && t.idom[b] in t.idx
    ensures t.idom[b] == b ==> a !in Ancestors(t, b)
    ensures t.idom[b] != b ==> t.idx[t.idom[b]] < t.idx[b] && (a in Ancestors(t, b) <==> a in Ancestors(t, t.idom[b]))
    ensures t.idom[b] == a ==> a in Ancestors(t, b)
  {
    if b != t.entry {
      RootedAt(t, b);
    }
  }
}
