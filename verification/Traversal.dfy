/**
 * Reverse postorder (ir/src/lib.rs): a recursive depth-first search whose output is
 * then reversed. Every block but the first has a predecessor that comes earlier, and
 * every edge that does not lie on a cycle leads to a later block.
 */
module Traversal {
  import opened Sequences
  import opened Graphs

  /** Some node with an edge to out[i] comes later. */
  ghost predicate ParentLater(g: Graph, out: seq<Node>, i: nat)
    requires i < |out|
  {
    exists j :: i < j < |out| && Edge(g, out[j], out[i])
  }

  /** A finished search tree: its root comes last, and every other node before some node above it. */
  ghost predicate Tree(g: Graph, root: Node, tree: seq<Node>) {
    tree != [] ==> tree[|tree| - 1] == root && forall i :: 0 <= i < |tree| - 1 ==> ParentLater(g, tree, i)
  }

  /** What a search from `root` adds: new nodes it reaches, whose successors are all seen. */
  ghost predicate Explored(g: Graph, root: Node, visited: set<Node>, visited': set<Node>, tree: seq<Node>) {
    && Distinct(tree) && ToSet(tree) !! visited && visited' == visited + ToSet(tree)
    && root in visited'
    && (forall x :: x in tree ==> Reaches(g, root, x))
    && (forall x, y {:trigger Edge(g, x, y)} :: x in tree && Edge(g, x, y) ==> y in visited')
  }

  /** While the search is at `root`: a forest below it, whose roots are successors of `root`. */
  ghost predicate Forest(g: Graph, root: Node, forest: seq<Node>) {
    forall i :: 0 <= i < |forest| ==> ParentLater(g, forest, i) || Edge(g, root, forest[i])
  }

  /** What the loop over the successors has added below `root`. */
  ghost predicate Expanding(
      g: Graph, root: Node, succs: seq<Node>, k: nat, visited: set<Node>, seen: set<Node>, forest: seq<Node>)
    requires k <= |succs|
  {
    && Forest(g, root, forest)
    && Distinct(forest) && ToSet(forest) !! visited + {root} && seen == visited + {root} + ToSet(forest)
    && (forall i :: 0 <= i < k ==> succs[i] in seen)
    && (forall x :: x in forest ==> Reaches(g, root, x))
    && (forall x, y {:trigger Edge(g, x, y)} :: x in forest && Edge(g, x, y) ==> y in seen)
  }

  lemma ForestGrows(g: Graph, root: Node, child: Node, forest: seq<Node>, tree: seq<Node>)
    requires Forest(g, root, forest) && Tree(g, child, tree) && Edge(g, root, child)
    ensures Forest(g, root, forest + tree)
  {
    var r := forest + tree;
    forall i | 0 <= i < |r| ensures ParentLater(g, r, i) || Edge(g, root, r[i]) {
      if i < |forest| {
        if ParentLater(g, forest, i) {
          var j :| i < j < |forest| && Edge(g, forest[j], forest[i]);
          assert Edge(g, r[j], r[i]);
        }
      } else if i < |r| - 1 {
        assert ParentLater(g, tree, i - |forest|);
        var j :| i - |forest| < j < |tree| && Edge(g, tree[j], tree[i - |forest|]);
        assert Edge(g, r[|forest| + j], r[i]);
      }
    }
  }

  lemma ReachesThrough(g: Graph, a: Node, b: Node, c: Node)
    requires a in g.succ && Edge(g, a, b) && Reaches(g, b, c)
    ensures Reaches(g, a, c)
  {
    var p :| PathBetween(g, p, b, c);
    assert PathBetween(g, [a] + p, a, c);
  }

  lemma ExpandStep(
      g: Graph, root: Node, succs: seq<Node>, k: nat, visited: set<Node>, seen: set<Node>, forest: seq<Node>,
      seen': set<Node>, tree: seq<Node>)
    requires WellLinked(g) && root in g.succ && succs == g.succ[root] && k < |succs|
    requires Expanding(g, root, succs, k, visited, seen, forest)
    requires Tree(g, succs[k], tree) && Explored(g, succs[k], seen, seen', tree)
    ensures Expanding(g, root, succs, k + 1, visited, seen', forest + tree)
  {
    hide Reaches, WellLinked, Tree, ParentLater, Forest;
    assert Edge(g, root, succs[k]);
    ForestGrows(g, root, succs[k], forest, tree);
    forall x | x in forest + tree ensures Reaches(g, root, x) {
      if x in tree {
        ReachesThrough(g, root, succs[k], x);
      }
    }
    assert ToSet(forest + tree) == ToSet(forest) + ToSet(tree);
    DistinctJoin(forest, tree);
  }

  lemma TreeDone(g: Graph, root: Node, visited: set<Node>, seen: set<Node>, forest: seq<Node>)
    requires root in g.succ && root !in visited
    requires Expanding(g, root, g.succ[root], |g.succ[root]|, visited, seen, forest)
    ensures Tree(g, root, forest + [root]) && Explored(g, root, visited, seen, forest + [root])
  {
    hide Reaches;
    var tree := forest + [root];
    forall i | 0 <= i < |tree| - 1 ensures ParentLater(g, tree, i) {
      if ParentLater(g, forest, i) {
        var j :| i < j < |forest| && Edge(g, forest[j], forest[i]);
        assert Edge(g, tree[j], tree[i]);
      } else {
        assert Edge(g, tree[|forest|], tree[i]);
      }
    }
    ReachesItself(g, root);
    assert ToSet(tree) == ToSet(forest) + {root};
  }

  /**
   * Where the edge from tree[i] to y leads: to a node that was finished before the
   * search (`finished`) or earlier in it, or back to one from which tree[i] can be reached.
   */
  ghost predicate EdgeDown(g: Graph, finished: set<Node>, tree: seq<Node>, i: nat, y: Node)
    requires i < |tree|
  {
    y in finished || y in tree[..i] || Reaches(g, y, tree[i])
  }

  ghost predicate EdgesDown(g: Graph, finished: set<Node>, tree: seq<Node>) {
    forall i, y {:trigger EdgeDown(g, finished, tree, i, y)} ::
      0 <= i < |tree| && Edge(g, tree[i], y) ==> EdgeDown(g, finished, tree, i, y)
  }

  lemma NoEdgesDown(g: Graph, finished: set<Node>)
    ensures EdgesDown(g, finished, [])
  {
  }

  /** What one search finished counts as finished for the next. */
  lemma EdgesJoin(g: Graph, finished: set<Node>, forest: seq<Node>, tree: seq<Node>)
    requires EdgesDown(g, finished, forest) && EdgesDown(g, finished + ToSet(forest), tree)
    ensures EdgesDown(g, finished, forest + tree)
  {
    hide Reaches;
    var r := forest + tree;
    forall i, y {:trigger EdgeDown(g, finished, r, i, y)} | 0 <= i < |r| && Edge(g, r[i], y)
      ensures EdgeDown(g, finished, r, i, y)
    {
      if i < |forest| {
        assert EdgeDown(g, finished, forest, i, y);
        assert r[..i] == forest[..i];
      } else {
        assert EdgeDown(g, finished + ToSet(forest), tree, i - |forest|, y);
        assert r[..i] == forest + tree[..i - |forest|];
      }
    }
  }

  /** The root comes last: its successors are finished, or it is in turn reached from them. */
  lemma RootDown(g: Graph, finished: set<Node>, active: set<Node>, forest: seq<Node>, root: Node)
    requires root in g.succ && EdgesDown(g, finished, forest)
    requires forall a :: a in active ==> Reaches(g, a, root)
    requires forall y :: Edge(g, root, y) ==> y in finished + active + {root} + ToSet(forest)
    ensures EdgesDown(g, finished, forest + [root])
  {
    ReachesItself(g, root);
    hide Reaches;
    var r := forest + [root];
    forall i, y {:trigger EdgeDown(g, finished, r, i, y)} | 0 <= i < |r| && Edge(g, r[i], y)
      ensures EdgeDown(g, finished, r, i, y)
    {
      assert r[..i] == forest[..i];
      if i < |forest| {
        assert EdgeDown(g, finished, forest, i, y);
      } else {
        assert forest[..i] == forest;
      }
    }
  }

  /** Those on the way to a node are on the way to its successors. */
  lemma ActiveReach(g: Graph, active: set<Node>, root: Node, child: Node)
    requires WellLinked(g) && Edge(g, root, child) && forall a :: a in active ==> Reaches(g, a, root)
    ensures forall a :: a in active + {root} ==> Reaches(g, a, child)
  {
    ReachesItself(g, root);
    hide Reaches;
    forall a | a in active + {root} ensures Reaches(g, a, child) {
      ReachesFurther(g, a, root, child);
    }
  }

  /** `active` are the nodes whose searches are under way: all of them lead to this one. */
  method PostorderDfs(g: Graph, block: Node, visited: set<Node>, out: seq<Node>, ghost active: set<Node>)
    returns (visited': set<Node>, out': seq<Node>, ghost tree: seq<Node>)
    requires WellLinked(g) && block in g.succ && visited <= g.succ.Keys
    requires active <= visited && forall a :: a in active ==> Reaches(g, a, block)
    ensures out' == out + tree && visited' <= g.succ.Keys
    ensures Tree(g, block, tree) && Explored(g, block, visited, visited', tree)
    ensures EdgesDown(g, visited - active, tree)
    decreases g.succ.Keys - visited
  {
    hide Reaches, WellLinked, Tree, Explored, Expanding, EdgesDown, ToSet;
    visited', out', tree := visited, out, [];
    NoEdgesDown(g, visited - active);
    if block in visited {
      NothingExplored(g, block, visited);
      return;
    }
    visited' := visited + {block};
    var succs := g.succ[block];
    StartExpanding(g, block, succs, visited);
    var k := 0;
    while k < |succs|
      invariant k <= |succs| && visited + {block} <= visited' <= g.succ.Keys
      invariant out' == out + tree
      invariant Expanding(g, block, succs, k, visited, visited', tree)
      invariant EdgesDown(g, visited - active, tree)
    {
      ghost var more;
      ghost var seen := visited';
      SuccessorInside(g, block, k);
      ExpandingSeen(g, block, succs, k, visited, seen, tree, active);
      ActiveReach(g, active, block, succs[k]);
      visited', out', more := PostorderDfs(g, succs[k], visited', out', active + {block});
      EdgesJoin(g, visited - active, tree, more);
      GrewOnly(g, succs[k], seen, visited', more);
      ExpandStep(g, block, succs, k, visited, seen, tree, visited', more);
      tree := tree + more;
      k := k + 1;
    }
    ExpandedSuccessors(g, block, visited, visited', tree);
    RootDown(g, visited - active, active, tree, block);
    TreeDone(g, block, visited, visited', tree);
    out' := out' + [block];
    tree := tree + [block];
  }

  lemma ExpandingSeen(
      g: Graph, root: Node, succs: seq<Node>, k: nat, visited: set<Node>, seen: set<Node>, forest: seq<Node>,
      active: set<Node>)
    requires k <= |succs| && Expanding(g, root, succs, k, visited, seen, forest) && active <= visited
        && root !in visited
    ensures seen - (active + {root}) == visited - active + ToSet(forest)
  {
    hide Forest, Reaches;
  }

  lemma ExpandedSuccessors(g: Graph, root: Node, visited: set<Node>, seen: set<Node>, forest: seq<Node>)
    requires root in g.succ && Expanding(g, root, g.succ[root], |g.succ[root]|, visited, seen, forest)
    ensures forall y :: Edge(g, root, y) ==> y in visited + {root} + ToSet(forest)
  {
    hide Forest, Reaches;
  }

  lemma NothingExplored(g: Graph, block: Node, visited: set<Node>)
    requires block in visited
    ensures Tree(g, block, []) && Explored(g, block, visited, visited, [])
  {
  }

  lemma StartExpanding(g: Graph, root: Node, succs: seq<Node>, visited: set<Node>)
    ensures Expanding(g, root, succs, 0, visited, visited + {root}, [])
  {
  }

  lemma SuccessorInside(g: Graph, a: Node, k: nat)
    requires WellLinked(g) && a in g.succ && k < |g.succ[a]|
    ensures g.succ[a][k] in g.succ && Edge(g, a, g.succ[a][k])
  {
    assert Edge(g, a, g.succ[a][k]);
  }

  lemma GrewOnly(g: Graph, root: Node, visited: set<Node>, visited': set<Node>, tree: seq<Node>)
    requires Explored(g, root, visited, visited', tree)
    ensures visited <= visited'
  {
  }

  // ---------------------------------------------------------------------------
  // The order
  // ---------------------------------------------------------------------------

  ghost predicate ParentEarlier(g: Graph, order: seq<Node>, i: nat)
    requires i < |order|
  {
    exists j :: 0 <= j < i && Edge(g, order[j], order[i])
  }

  /**
   * A search order of a graph: the entry first, every reachable node once, and each
   * node behind one of its predecessors.
   */
  ghost predicate SearchOrder(g: Graph, order: seq<Node>) {
    && order != [] && order[0] == g.entry && Distinct(order)
    && (forall x :: x in order <==> Reaches(g, g.entry, x))
    && (forall x :: x in order ==> x in g.succ)
    && (forall i :: 0 < i < |order| ==> ParentEarlier(g, order, i))
  }

  /** An edge leads to a later node, unless its target leads back to its source. */
  ghost predicate EdgesForward(g: Graph, order: seq<Node>) {
    forall i, j :: 0 <= i < |order| && 0 <= j < |order| && Edge(g, order[i], order[j]) ==>
      i < j || Reaches(g, order[j], order[i])
  }

  /** In particular the order is topological if no edge lies on a cycle. */
  method ReversePostOrder(g: Graph) returns (order: seq<Node>)
    requires WellLinked(g)
    ensures SearchOrder(g, order) && EdgesForward(g, order)
  {
    hide Reaches, SearchOrder, Tree, Explored, EdgesDown, EdgesForward;
    var visited, postorder, tree := PostorderDfs(g, g.entry, {}, [], {});
    assert postorder == tree;
    order := Reversed(postorder);
    ReversedTree(g, postorder, visited);
    ExploredOnce(g, g.entry, postorder, visited);
    ReversedEdges(g, postorder);
  }

  lemma ExploredOnce(g: Graph, root: Node, tree: seq<Node>, visited: set<Node>)
    requires Explored(g, root, {}, visited, tree)
    ensures Distinct(tree)
  {
    hide Reaches;
  }

  lemma ReversedEdges(g: Graph, tree: seq<Node>)
    requires Distinct(tree) && EdgesDown(g, {} - {}, tree)
    ensures EdgesForward(g, Reversed(tree))
  {
    hide Reaches;
    var order, n := Reversed(tree), |tree|;
    forall i, j | 0 <= i < n && 0 <= j < n && Edge(g, order[i], order[j])
      ensures i < j || Reaches(g, order[j], order[i])
    {
      var a := n - 1 - i;
      assert order[i] == tree[a] && order[j] == tree[n - 1 - j];
      assert EdgeDown(g, {} - {}, tree, a, order[j]);
      if order[j] in tree[..a] {
        var c :| 0 <= c < a && tree[c] == order[j];
        assert c == n - 1 - j;
      }
    }
  }

  lemma ReversedTree(g: Graph, tree: seq<Node>, visited: set<Node>)
    requires WellLinked(g)
    requires Tree(g, g.entry, tree) && Explored(g, g.entry, {}, visited, tree) && visited <= g.succ.Keys
    ensures SearchOrder(g, Reversed(tree))
  {
    hide Reaches, WellLinked;
    var order := Reversed(tree);
    var n := |tree|;
    assert tree != [] by { assert g.entry in ToSet(tree); }
    ReversedKeeps(tree);
    ClosedContainsReached(g, visited, g.entry);
    forall i | 0 < i < n ensures ParentEarlier(g, order, i) {
      assert ParentLater(g, tree, n - 1 - i);
      var j :| n - 1 - i < j < n && Edge(g, tree[j], tree[n - 1 - i]);
      assert order[n - 1 - j] == tree[j] && order[i] == tree[n - 1 - i];
      assert Edge(g, order[n - 1 - j], order[i]);
    }
  }

  lemma ReversedKeeps<T>(s: seq<T>)
    requires Distinct(s)
    ensures Distinct(Reversed(s))
    ensures forall x :: x in Reversed(s) <==> x in s
  {
    var r := Reversed(s);
    forall x | x in s ensures x in r {
      var i :| 0 <= i < |s| && s[i] == x;
      assert r[|s| - 1 - i] == x;
    }
  }
}
