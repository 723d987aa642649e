/** Control-flow graphs as graphs: edges, paths, reachability. */
module Graphs {
  import opened Sequences

  type Node = nat

  /** Every edge is recorded at both of its ends. */
  datatype Graph = Graph(succ: map<Node, seq<Node>>, pred: map<Node, seq<Node>>, entry: Node)

  predicate Edge(g: Graph, a: Node, b: Node) {
    a in g.succ && b in g.succ[a]
  }

  /** What the analyses assume of a graph: no edge leaves it, and both ends agree. */
  ghost predicate WellLinked(g: Graph) {
    && g.succ.Keys == g.pred.Keys && g.entry in g.succ
    && (forall a, b {:trigger Edge(g, a, b)} :: Edge(g, a, b) ==> b in g.succ && a in g.pred[b])
    && (forall a, b {:trigger Edge(g, a, b)} :: b in g.pred && a in g.pred[b] ==> Edge(g, a, b))
  }

  ghost predicate IsPath(g: Graph, p: seq<Node>) {
    && p != []
    && (forall i :: 0 <= i < |p| ==> p[i] in g.succ)
    && (forall i :: 0 <= i < |p| - 1 ==> Edge(g, p[i], p[i + 1]))
  }

  ghost predicate PathBetween(g: Graph, p: seq<Node>, a: Node, b: Node) {
    IsPath(g, p) && p[0] == a && p[|p| - 1] == b
  }

  ghost predicate Reaches(g: Graph, a: Node, b: Node) {
    exists p :: PathBetween(g, p, a, b)
  }

  lemma ReachesItself(g: Graph, a: Node)
    requires a in g.succ
    ensures Reaches(g, a, a)
  {
    assert PathBetween(g, [a], a, a);
  }

  lemma ReachesFurther(g: Graph, a: Node, b: Node, c: Node)
    requires WellLinked(g) && Reaches(g, a, b) && Edge(g, b, c)
    ensures Reaches(g, a, c)
  {
    var p :| PathBetween(g, p, a, b);
    assert PathBetween(g, p + [c], a, c);
  }

  /** A set that contains a node and is closed under edges contains what the node reaches. */
  lemma {:induction false} ClosedContains(g: Graph, s: set<Node>, p: seq<Node>)
    requires IsPath(g, p) && p[0] in s
    requires forall a, b {:trigger Edge(g, a, b)} :: a in s && Edge(g, a, b) ==> b in s
    ensures p[|p| - 1] in s
    decreases |p|
  {
    if |p| > 1 {
      assert Edge(g, p[0], p[1]);
      ClosedContains(g, s, p[1..]);
    }
  }

  lemma ClosedContainsReached(g: Graph, s: set<Node>, a: Node)
    requires a in s
    requires forall x, y {:trigger Edge(g, x, y)} :: x in s && Edge(g, x, y) ==> y in s
    ensures forall b :: Reaches(g, a, b) ==> b in s
  {
    forall b | Reaches(g, a, b) ensures b in s {
      var p :| PathBetween(g, p, a, b);
      ClosedContains(g, s, p);
    }
  }

  /** The elements of a set in an arbitrary order, as iterating over a hash set gives them. */
  method AnyOrder<T(==)>(s: set<T>) returns (order: seq<T>)
    ensures Distinct(order) && ToSet(order) == s
  {
    order := [];
    var rest := s;
    while rest != {}
      invariant Distinct(order) && ToSet(order) !! rest && ToSet(order) + rest == s
      decreases rest
    {
      var x :| x in rest;
      order, rest := order + [x], rest - {x};
    }
  }
}
