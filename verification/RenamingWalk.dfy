/**
 * The recursive walk of SSA renaming (ir/src/ssa_ir.rs): every block is entered with the
 * environment its immediate dominator ends with, and no two definitions share a
 * register.
 */
module RenamingWalk {
  import opened Sequences
  import opened Graphs
  import opened Dominance
  import opened Ssa
  import opened PhiPlacement
  import opened RenamingSpec
  import opened Renaming

  // ---------------------------------------------------------------------------
  // Subtrees of the dominator tree
  // ---------------------------------------------------------------------------

  ghost function Subtree(t: Links, b: Node): set<Node>
    requires Rooted(t)
  {
    set c | c in t.idom && b in Ancestors(t, c)
  }

  function Children(t: Links, b: Node): set<Node> {
    set c | c in t.idom && c != t.entry && t.idom[c] == b
  }

  ghost function Subtrees(t: Links, roots: set<Node>): set<Node>
    requires Rooted(t)
  {
    set r, c | r in roots && c in t.idom && r in Ancestors(t, c) :: c
  }

  /** A node's subtree is the node and the subtrees of its children. */
  lemma SubtreeSplits(t: Links, b: Node)
    requires Rooted(t) && b in t.idom
    ensures Subtree(t, b) == {b} + Subtrees(t, Children(t, b))
    ensures b !in Subtrees(t, Children(t, b))
  {
    forall c | c in Subtree(t, b) && c != b ensures c in Subtrees(t, Children(t, b)) {
      var r := ChildAbove(t, b, c);
    }
    forall r, c | r in Children(t, b) && c in t.idom && r in Ancestors(t, c) ensures c in Subtree(t, b) && c != b {
      RootedAt(t, r);
      AncestorsOfAncestor(t, r, c);
      NotDeeper(t, r, c);
    }
  }

  lemma {:induction false} ChildAbove(t: Links, b: Node, c: Node) returns (r: Node)
    requires Rooted(t) && c in t.idom && b in Ancestors(t, c) && b != c
    ensures r in Children(t, b) && r in Ancestors(t, c)
    decreases t.idx[c]
  {
    if t.idom[c] == b {
      r := c;
    } else {
      r := ChildAbove(t, b, t.idom[c]);
    }
  }

  /** Subtrees of different children do not meet. */
  lemma SubtreesApart(t: Links, b: Node, roots: set<Node>, r: Node)
    requires Rooted(t) && Injective(t.idx) && roots <= Children(t, b) && r in Children(t, b) && r !in roots
    ensures Subtrees(t, roots) !! Subtree(t, r)
    ensures Subtrees(t, roots + {r}) == Subtrees(t, roots) + Subtree(t, r)
  {
    hide Rooted, Injective, Ancestors;
    forall c | c in Subtrees(t, roots) ensures c !in Subtree(t, r) {
      var q :| q in roots && c in t.idom && q in Ancestors(t, c);
      if r in Ancestors(t, c) {
        SiblingsApart(t, b, q, r, c);
      }
    }
  }

  lemma SiblingsApart(t: Links, b: Node, q: Node, r: Node, c: Node)
    requires Rooted(t) && Injective(t.idx) && q in Children(t, b) && r in Children(t, b) && c in t.idom
    requires q in Ancestors(t, c) && r in Ancestors(t, c)
    ensures q == r
  {
    RootedAt(t, q);
    RootedAt(t, r);
    if t.idx[q] <= t.idx[r] {
      AncestorsChain(t, r, q, c);
    } else {
      AncestorsChain(t, q, r, c);
    }
  }

  // ---------------------------------------------------------------------------
  // Environments down the tree
  // ---------------------------------------------------------------------------

  /** Every block but the root is entered with the environment its link ends with. */
  ghost predicate FlowsDown(t: Links, root: Node, env: Env, blocks: Blocks, envs: map<BlockId, Env>) {
    && root in envs && envs[root] == env && envs.Keys <= t.idom.Keys && envs.Keys <= blocks.Keys
    && forall c :: c in envs && c != root ==>
         t.idom[c] in envs && envs[c] == EnvOut(envs[t.idom[c]], blocks[t.idom[c]])
  }

  lemma FlowsOn(
      t: Links, root: Node, env: Env, blocks1: Blocks, e1: map<BlockId, Env>,
      child: Node, blocks2: Blocks, e2: map<BlockId, Env>)
    requires FlowsDown(t, root, env, blocks1, e1) && child in t.idom && t.idom[child] == root
    requires FlowsDown(t, child, EnvOut(env, blocks1[root]), blocks2, e2)
    requires Pass(blocks1, blocks2, e2) && e1.Keys !! e2.Keys
    ensures FlowsDown(t, root, env, blocks2, e1 + e2)
  {
    hide EnvOut, BlockRenamed, PhisGrew;
    forall c | c in e1 ensures EnvOut(e1[c], blocks1[c]) == EnvOut(e1[c], blocks2[c]) {
      assert PassAt(blocks1, blocks2, e2, c);
      EnvOutOfSame(e1[c], blocks1[c], blocks2[c]);
    }
  }

  /** The symbols defined by the strict ancestors of a block, and the parameters. */
  ghost function Available(t: Links, blocks: Blocks, parameters: set<Symbol>, b: Node): set<Symbol>
    requires Rooted(t) && b in t.idom && t.idom.Keys <= blocks.Keys
    decreases t.idx[b]
  {
    if b == t.entry then parameters
    else Available(t, blocks, parameters, t.idom[b]) + Defined(blocks[t.idom[b]])
  }

  /** Every read in the block is of something that the block, one above it in the tree, or a parameter defines. */
  ghost predicate ReadsDefined(t: Links, blocks: Blocks, parameters: set<Symbol>, b: Node)
    requires Rooted(t) && t.idom.Keys <= blocks.Keys
  {
    b in t.idom ==> !UsesUndefined(blocks[b], Available(t, blocks, parameters, b))
  }

  lemma UndefinedOfSame(b0: Block, b1: Block, avail: set<Symbol>)
    requires SameButSources(b0, b1)
    ensures UsesUndefined(b0, avail) <==> UsesUndefined(b1, avail)
  {
    SymbolsOfSame(b0.phis, b1.phis);
  }

  // ---------------------------------------------------------------------------
  // One block's own pass
  // ---------------------------------------------------------------------------

  /** Renaming block b and telling its successors is a pass over b alone. */
  lemma OwnPass(blocks: Blocks, b: BlockId, env: Env, b1: Block, blocks': Blocks)
    requires b in blocks && BlockRenamed(blocks[b], b1, env)
    requires forall k :: 0 <= k < |b1.phis| ==> k < |blocks[b].phis| && b1.phis[k].sources == blocks[b].phis[k].sources
    requires blocks' == Filled(blocks[b := b1], ToSet(b1.successors), b, EnvOut(env, b1))
    ensures Pass(blocks, blocks', map[b := env])
    ensures SameButSources(b1, blocks'[b])
  {
    hide EnvOut, BodyRenamed, EnvAfterPhis, RenameTerminator;
    var envs := map[b := env];
    FilledSame(b1, blocks', blocks, b, env);
    EnvOutOfSame(env, b1, blocks'[b]);
    forall c | c in blocks ensures PassAt(blocks, blocks', envs, c) {
      OwnPhis(blocks, b, env, b1, blocks', c);
      if c == b {
        RenamedThenSame(blocks[b], b1, blocks'[b], env);
      }
    }
  }

  lemma FilledSame(b1: Block, blocks': Blocks, blocks: Blocks, b: BlockId, env: Env)
    requires b in blocks && blocks' == Filled(blocks[b := b1], ToSet(b1.successors), b, EnvOut(env, b1))
    ensures b in blocks' && blocks'.Keys == blocks.Keys && SameButSources(b1, blocks'[b])
  {
    hide EnvOut;
  }

  lemma OwnPhis(blocks: Blocks, b: BlockId, env: Env, b1: Block, blocks': Blocks, c: BlockId)
    requires b in blocks && c in blocks && |b1.phis| == |blocks[b].phis|
    requires forall k :: 0 <= k < |b1.phis| ==> b1.phis[k].sources == blocks[b].phis[k].sources
    requires blocks' == Filled(blocks[b := b1], ToSet(b1.successors), b, EnvOut(env, b1))
    requires b in blocks' && SameButSources(b1, blocks'[b]) && EnvOut(env, b1) == EnvOut(env, blocks'[b])
    ensures PhisGrew(blocks[c], blocks'[c], blocks', map[b := env], c)
  {
    hide EnvOut;
    var base := blocks[b := b1];
    forall k | 0 <= k < |blocks[c].phis|
      ensures SourcesGrew(blocks[c].phis[k].sources, blocks'[c].phis[k].sources, blocks', map[b := env], c,
          blocks'[c].phis[k].dest.symbol)
    {
      OwnSources(blocks[c].phis[k].sources, base[c].phis[k], blocks'[c].phis[k], b, blocks', env, c);
    }
  }

  lemma OwnSources(s: Sources, phi: Phi, phi': Phi, b: BlockId, blocks': Blocks, env: Env, c: BlockId)
    requires b in blocks' && phi.sources == s
    requires phi' == if c in blocks'[b].successors then FillPhi(phi, b, EnvOut(env, blocks'[b])) else phi
    ensures SourcesGrew(s, phi'.sources, blocks', map[b := env], c, phi'.dest.symbol)
  {
    hide EnvOut;
    var x, out, more := phi'.dest.symbol, EnvOut(env, blocks'[b]), phi'.sources[|s|..];
    if c in blocks'[b].successors && x in out {
      assert more == [(b, Register(x, out[x]))];
    } else {
      assert more == [];
    }
    forall p: BlockId, r: Register ensures (p, r) in more <==> IsSource(blocks', map[b := env], c, x, p, r) {
    }
  }

  // ---------------------------------------------------------------------------
  // The walk
  // ---------------------------------------------------------------------------

  /** Successors stay inside the graph and are listed once. */
  ghost predicate SuccessorsOk(blocks: Blocks) {
    forall b :: b in blocks ==> Distinct(blocks[b].successors) && forall c :: c in blocks[b].successors ==> c in blocks
  }

  lemma SuccessorsStayOk(blocks0: Blocks, blocks1: Blocks, envs: map<BlockId, Env>)
    requires SuccessorsOk(blocks0) && Pass(blocks0, blocks1, envs)
    ensures SuccessorsOk(blocks1)
  {
    hide PassAt;
    forall b | b in blocks1 ensures blocks1[b].successors == blocks0[b].successors {
      SuccessorsKept(blocks0, blocks1, envs, b);
    }
  }

  /** What renaming the blocks in `envs` has achieved. */
  ghost predicate Walked(
      t: Links, root: Node, env: Env, blocks0: Blocks, blocks1: Blocks, envs: map<BlockId, Env>, c0: Counters,
      c1: Counters)
  {
    && Pass(blocks0, blocks1, envs) && FlowsDown(t, root, env, blocks1, envs)
    && SingleAssignment(blocks1, envs.Keys, c0, c1)
  }

  lemma WalkedOn(
      t: Links, root: Node, env: Env, blocks0: Blocks, blocks1: Blocks, e1: map<BlockId, Env>, c0: Counters,
      c1: Counters,
      child: Node, blocks2: Blocks, e2: map<BlockId, Env>, c2: Counters)
    requires Walked(t, root, env, blocks0, blocks1, e1, c0, c1)
    requires child in t.idom && t.idom[child] == root
    requires root in blocks1 && Walked(t, child, EnvOut(env, blocks1[root]), blocks1, blocks2, e2, c1, c2)
    requires e1.Keys !! e2.Keys
    ensures Walked(t, root, env, blocks0, blocks2, e1 + e2, c0, c2)
    ensures root in blocks2 && EnvOut(env, blocks2[root]) == EnvOut(env, blocks1[root])
  {
    hide Pass, SingleAssignment, EnvOut;
    PassCompose(blocks0, blocks1, blocks2, e1, e2);
    AssignmentCompose(blocks1, blocks2, e1, e2, c0, c1, c2);
    FlowsOn(t, root, env, blocks1, e1, child, blocks2, e2);
    RootKept(t, root, env, blocks1, e1, blocks2, e2);
  }

  lemma RootKept(
      t: Links, root: Node, env: Env, blocks1: Blocks, e1: map<BlockId, Env>, blocks2: Blocks, e2: map<BlockId, Env>)
    requires FlowsDown(t, root, env, blocks1, e1) && Pass(blocks1, blocks2, e2) && e1.Keys !! e2.Keys
    ensures root in blocks1 && root in blocks2 && EnvOut(env, blocks2[root]) == EnvOut(env, blocks1[root])
  {
    hide EnvOut, BlockRenamed, PhisGrew;
    assert PassAt(blocks1, blocks2, e2, root);
    EnvOutOfSame(env, blocks1[root], blocks2[root]);
  }

  lemma WalkedOwn(
      t: Links, b: Node, env: Env, blocks: Blocks, b1: Block, blocks': Blocks, c0: Counters, c1: Counters)
    requires b in blocks && b in t.idom && Pass(blocks, blocks', map[b := env])
    requires SameButSources(b1, blocks'[b]) && Numbered(Dests(b1), c0, c1)
    ensures Walked(t, b, env, blocks, blocks', map[b := env], c0, c1)
    ensures EnvOut(env, blocks'[b]) == EnvOut(env, b1)
  {
    hide Pass, PassAt, EnvOut, Dests;
    PassKeys(blocks, blocks', map[b := env]);
    DestsOfSame(b1, blocks'[b]);
    EnvOutOfSame(env, b1, blocks'[b]);
  }

  lemma PassKeys(blocks0: Blocks, blocks1: Blocks, envs: map<BlockId, Env>)
    requires Pass(blocks0, blocks1, envs)
    ensures blocks1.Keys == blocks0.Keys
  {
  }

  /** Of the unrenamed function, for the blocks still to come: shape and availability are as they were. */
  ghost predicate Untouched(blocks0: Blocks, blocks: Blocks, done: set<BlockId>) {
    blocks.Keys == blocks0.Keys && forall b :: b in blocks0 && b !in done ==> SameButSources(blocks0[b], blocks[b])
  }

  lemma PassLeaves(blocks0: Blocks, blocks1: Blocks, blocks2: Blocks, done: set<BlockId>, envs: map<BlockId, Env>)
    requires Untouched(blocks0, blocks1, done) && Pass(blocks1, blocks2, envs)
    ensures Untouched(blocks0, blocks2, done + envs.Keys)
  {
    hide BlockRenamed, PhisGrew;
    forall b | b in blocks0 && b !in done + envs.Keys ensures SameButSources(blocks0[b], blocks2[b]) {
      assert PassAt(blocks1, blocks2, envs, b);
    }
  }

  lemma SuccessorsAt(blocks: Blocks, b: BlockId, b1: Block)
    requires SuccessorsOk(blocks) && b in blocks && b1.successors == blocks[b].successors
    ensures Distinct(b1.successors) && forall c :: c in b1.successors ==> c in blocks[b := b1]
  {
  }

  lemma RenamedSuccessors(b0: Block, b1: Block, env: Env)
    requires BlockRenamed(b0, b1, env)
    ensures b1.successors == b0.successors && |b1.phis| == |b0.phis|
  {
  }

  /** The block about to be renamed is still as in the unrenamed function. */
  lemma BlockUntouched(t: Links, b: Node, blocks0: Blocks, blocks: Blocks, done: set<BlockId>)
    requires Rooted(t) && b in t.idom && b in blocks && Untouched(blocks0, blocks, done) && Subtree(t, b) !! done
    ensures b in blocks0 && SameButSources(blocks0[b], blocks[b]) && b in Subtree(t, b)
  {
  }

  lemma ReadsHere(t: Links, blocks0: Blocks, b: Node, b0: Block, parameters: set<Symbol>, avail: set<Symbol>)
    requires Rooted(t) && b in t.idom && t.idom.Keys <= blocks0.Keys && SameButSources(blocks0[b], b0)
    requires avail == Available(t, blocks0, parameters, b)
    ensures UsesUndefined(b0, avail) <==> !ReadsDefined(t, blocks0, parameters, b)
    ensures Defined(b0) == Defined(blocks0[b])
  {
    hide UsesUndefined, Available;
    UndefinedOfSame(blocks0[b], b0, avail);
    SymbolsOfSame(blocks0[b].phis, b0.phis);
  }

  lemma AvailableToChild(t: Links, blocks0: Blocks, parameters: set<Symbol>, b: Node, c: Node)
    requires Rooted(t) && b in t.idom && t.idom.Keys <= blocks0.Keys && c in Children(t, b)
    ensures c in t.idom && t.idom[c] == b && c in t.idx && b in t.idx && t.idx[b] < t.idx[c]
    ensures Available(t, blocks0, parameters, c) == Available(t, blocks0, parameters, b) + Defined(blocks0[b])
  {
    RootedAt(t, c);
  }

  /** Pops undo pushes, whatever their order. */
  method PopAll(ctx: RenamingContext, defs: seq<Symbol>, ghost s0: Stacks)
    requires Pushed(s0, ctx.stacks, defs)
    modifies ctx`stacks
    ensures SameStacks(s0, ctx.stacks)
  {
    hide Pushed;
    assert defs[0..] == defs;
    for i := 0 to |defs|
      invariant Pushed(s0, ctx.stacks, defs[i..])
    {
      ghost var before := ctx.stacks;
      ctx.Pop(defs[i]);
      PoppedOne(s0, before, ctx.stacks, defs, i);
    }
    assert defs[|defs|..] == [];
    PushedNothing(s0, ctx.stacks);
  }

  lemma PoppedOne(s0: Stacks, s1: Stacks, s2: Stacks, defs: seq<Symbol>, i: nat)
    requires i < |defs| && Pushed(s0, s1, defs[i..])
    requires forall y :: y != defs[i] ==> StackOf(s2, y) == StackOf(s1, y)
    requires StackOf(s1, defs[i]) != [] ==> StackOf(s2, defs[i]) == StackOf(s1, defs[i])[..|StackOf(s1, defs[i])| - 1]
    ensures Pushed(s0, s2, defs[i + 1..])
  {
    hide StackOf;
    assert defs[i..] == [defs[i]] + defs[i + 1..];
    assert multiset(defs[i..]) == multiset{defs[i]} + multiset(defs[i + 1..]);
    forall x
      ensures StackOf(s0, x) <= StackOf(s2, x)
      ensures |StackOf(s2, x)| == |StackOf(s0, x)| + multiset(defs[i + 1..])[x]
    {
      assert StackOf(s0, x) <= StackOf(s1, x);
    }
  }

  lemma PushedNothing(s0: Stacks, s1: Stacks)
    requires Pushed(s0, s1, [])
    ensures SameStacks(s0, s1)
  {
    hide StackOf;
    forall x ensures StackOf(s0, x) == StackOf(s1, x) {
      assert StackOf(s0, x) <= StackOf(s1, x);
    }
  }

  lemma PushedSame(s0: Stacks, s1: Stacks, s2: Stacks, defs: seq<Symbol>)
    requires Pushed(s0, s1, defs) && SameStacks(s1, s2)
    ensures Pushed(s0, s2, defs)
  {
    hide StackOf;
    forall x ensures StackOf(s0, x) <= StackOf(s2, x) && |StackOf(s2, x)| == |StackOf(s0, x)| + multiset(defs)[x] {
      assert StackOf(s0, x) <= StackOf(s1, x) && StackOf(s1, x) == StackOf(s2, x);
    }
  }

  /** Rename the block itself and tell its successors. */
  method RenameOwn(f: SsaFunction, b: BlockId, ctx: RenamingContext)
    returns (ok: bool, defs: seq<Symbol>, ghost b1: Block)
    requires b in f.blocks && SuccessorsOk(f.blocks)
    modifies f`blocks, ctx
    ensures ok <==> !UsesUndefined(old(f.blocks[b]), CurrentEnv(old(ctx.stacks)).Keys)
    ensures ok ==> Pass(old(f.blocks), f.blocks, map[b := CurrentEnv(old(ctx.stacks))])
    ensures ok ==> SameButSources(b1, f.blocks[b]) && Numbered(Dests(b1), old(ctx.counters), ctx.counters)
    ensures ok ==> CurrentEnv(ctx.stacks) == EnvOut(CurrentEnv(old(ctx.stacks)), b1)
    ensures ok ==> CurrentEnv(ctx.stacks).Keys == CurrentEnv(old(ctx.stacks)).Keys + Defined(old(f.blocks[b]))
    ensures ok ==> Pushed(old(ctx.stacks), ctx.stacks, defs)
  {
    hide SuccessorsOk, CurrentEnv, UsesUndefined, BlockRenamed, EnvOut, Pushed, Numbered, Pass, Filled, Distinct, ToSet,
      SameButSources, Dests;
    ghost var env, before := CurrentEnv(ctx.stacks), f.blocks;
    var renamed;
    ok, renamed, defs := RenameBlock(f.blocks[b], ctx);
    b1 := renamed;
    if !ok {
      return;
    }
    RenamedSuccessors(f.blocks[b], renamed, env);
    SuccessorsAt(f.blocks, b, renamed);
    f.blocks := f.blocks[b := renamed];
    FillSuccessorPhis(f, b, ctx);
    OwnPass(before, b, env, renamed, f.blocks);
  }

  /** What the loop over the children keeps. */
  ghost predicate Walking(
      t: Links, b: Node, env: Env, out: Env, blocks0: Blocks, parameters: set<Symbol>, done: set<BlockId>,
      start: Blocks, blocks: Blocks, envs: map<BlockId, Env>, c0: Counters, c1: Counters, roots: set<Node>)
    requires Rooted(t) && t.idom.Keys <= blocks0.Keys
  {
    && b in t.idom && b in blocks && Walked(t, b, env, start, blocks, envs, c0, c1) && SuccessorsOk(blocks)
    && envs.Keys == {b} + Subtrees(t, roots) && roots <= Children(t, b)
    && Untouched(blocks0, blocks, done + envs.Keys)
    && EnvOut(env, blocks[b]) == out
    && forall c :: c in envs ==> ReadsDefined(t, blocks0, parameters, c)
  }

  lemma WalkingStarts(
      t: Links, b: Node, env: Env, blocks0: Blocks, parameters: set<Symbol>, done: set<BlockId>,
      start: Blocks, b1: Block, blocks: Blocks, c0: Counters, c1: Counters)
    requires Rooted(t) && t.idom.Keys <= blocks0.Keys && b in t.idom && b in start && SuccessorsOk(start)
    requires Untouched(blocks0, start, done) && Pass(start, blocks, map[b := env]) && b in blocks
    requires SameButSources(b1, blocks[b]) && Numbered(Dests(b1), c0, c1) && ReadsDefined(t, blocks0, parameters, b)
    ensures Walking(t, b, env, EnvOut(env, b1), blocks0, parameters, done, start, blocks, map[b := env], c0, c1, {})
  {
    hide Rooted, SuccessorsOk, Untouched, EnvOut, Numbered, Walked, Pass, SameButSources, Dests, ReadsDefined;
    WalkedOwn(t, b, env, start, b1, blocks, c0, c1);
    SuccessorsStayOk(start, blocks, map[b := env]);
    PassLeaves(blocks0, start, blocks, done, map[b := env]);
    assert Subtrees(t, {}) == {};
    assert done + {b} == done + (map[b := env]).Keys;
  }

  lemma WalkingGoesOn(
      t: Links, b: Node, env: Env, out: Env, blocks0: Blocks, parameters: set<Symbol>, done: set<BlockId>,
      start: Blocks, blocks: Blocks, e1: map<BlockId, Env>, c0: Counters, c1: Counters, roots: set<Node>,
      c: Node, blocks': Blocks, e2: map<BlockId, Env>, c2: Counters)
    requires Rooted(t) && Injective(t.idx) && t.idom.Keys <= blocks0.Keys
    requires Walking(t, b, env, out, blocks0, parameters, done, start, blocks, e1, c0, c1, roots)
    requires c in Children(t, b) && c !in roots && e2.Keys == Subtree(t, c)
    requires Walked(t, c, out, blocks, blocks', e2, c1, c2)
    requires forall x :: x in Subtree(t, c) ==> ReadsDefined(t, blocks0, parameters, x)
    ensures Walking(t, b, env, out, blocks0, parameters, done, start, blocks', e1 + e2, c0, c2, roots + {c})
  {
    hide Rooted, Injective, SuccessorsOk, Untouched, EnvOut, ReadsDefined, Subtree, Subtrees, Pass, SingleAssignment,
        FlowsDown;
    SubtreesApart(t, b, roots, c);
    NotInOwnChildren(t, b, c);
    assert Pass(blocks, blocks', e2);
    WalkedOn(t, b, env, start, blocks, e1, c0, c1, c, blocks', e2, c2);
    SuccessorsStayOk(blocks, blocks', e2);
    PassLeaves(blocks0, blocks, blocks', done + e1.Keys, e2);
    assert done + (e1 + e2).Keys == done + e1.Keys + e2.Keys;
    assert (e1 + e2).Keys == {b} + (Subtrees(t, roots) + Subtree(t, c));
  }

  lemma NotInOwnChildren(t: Links, b: Node, c: Node)
    requires Rooted(t) && c in Children(t, b)
    ensures b !in Subtree(t, c) && c in t.idom && t.idom[c] == b
  {
    RootedAt(t, c);
    if b in Subtree(t, c) {
      NotDeeper(t, c, b);
    }
  }

  /** The next child may be renamed. */
  lemma ChildReady(
      t: Links, b: Node, env: Env, out: Env, blocks0: Blocks, parameters: set<Symbol>, done: set<BlockId>,
      start: Blocks, blocks: Blocks, envs: map<BlockId, Env>, c0: Counters, c1: Counters, roots: set<Node>, c: Node)
    requires Rooted(t) && Injective(t.idx) && t.idom.Keys <= blocks0.Keys
    requires Walking(t, b, env, out, blocks0, parameters, done, start, blocks, envs, c0, c1, roots)
    requires c in Children(t, b) && c !in roots && Subtree(t, b) !! done
    ensures Subtree(t, c) !! done + envs.Keys && Subtree(t, c) <= Subtree(t, b)
    ensures SuccessorsOk(blocks) && Untouched(blocks0, blocks, done + envs.Keys) && blocks.Keys == blocks0.Keys
  {
    hide Rooted, Injective, SuccessorsOk, EnvOut, ReadsDefined, Walked;
    SubtreesApart(t, b, roots, c);
    NotInOwnChildren(t, b, c);
    SubtreeSplits(t, b);
    hide Subtree, Subtrees;
    SubtreeOfChild(t, b, c);
  }

  lemma SubtreeOfChild(t: Links, b: Node, c: Node)
    requires Rooted(t) && b in t.idom && c in Children(t, b)
    ensures Subtree(t, c) <= Subtree(t, b)
  {
    forall x | x in Subtree(t, c) ensures x in Subtree(t, b) {
      RootedAt(t, c);
      AncestorsOfAncestor(t, c, x);
    }
  }

  lemma WalkingDone(
      t: Links, b: Node, env: Env, out: Env, blocks0: Blocks, parameters: set<Symbol>, done: set<BlockId>,
      start: Blocks, blocks: Blocks, envs: map<BlockId, Env>, c0: Counters, c1: Counters)
    requires Rooted(t) && t.idom.Keys <= blocks0.Keys
    requires Walking(t, b, env, out, blocks0, parameters, done, start, blocks, envs, c0, c1, Children(t, b))
    ensures envs.Keys == Subtree(t, b) && Walked(t, b, env, start, blocks, envs, c0, c1)
    ensures forall c :: c in Subtree(t, b) ==> ReadsDefined(t, blocks0, parameters, c)
  {
    hide Rooted, ReadsDefined, Walked, Untouched, SuccessorsOk;
    SubtreeSplits(t, b);
  }

  /** Rename a block, tell its successors, rename its children, and pop what was pushed. */
  method RecursiveRename(
      f: SsaFunction, b: BlockId, t: Links, ctx: RenamingContext, ghost bound: nat,
      ghost blocks0: Blocks, ghost parameters: set<Symbol>, ghost done: set<BlockId>)
    returns (ok: bool, ghost envs: map<BlockId, Env>)
    requires Rooted(t) && Injective(t.idx) && b in t.idom && t.idom.Keys <= f.blocks.Keys && SuccessorsOk(f.blocks)
    requires forall x :: x in t.idx ==> t.idx[x] < bound
    requires Untouched(blocks0, f.blocks, done) && Subtree(t, b) !! done && blocks0.Keys == f.blocks.Keys
    requires CurrentEnv(ctx.stacks).Keys == Available(t, blocks0, parameters, b)
    modifies f`blocks, ctx
    ensures ok ==> envs.Keys == Subtree(t, b) && SameStacks(old(ctx.stacks), ctx.stacks)
    ensures ok ==> Walked(t, b, CurrentEnv(old(ctx.stacks)), old(f.blocks), f.blocks, envs, old(ctx.counters),
        ctx.counters)
    ensures ok <==> forall c :: c in Subtree(t, b) ==> ReadsDefined(t, blocks0, parameters, c)
    decreases bound - (if b in t.idx then t.idx[b] else 0)
  {
    hide Rooted, Injective, Ancestors, SuccessorsOk, Untouched, CurrentEnv, UsesUndefined, EnvOut, Pushed, Numbered,
      SameStacks, Walked, Pass, Distinct, SameButSources, Subtree, Subtrees, Available, ReadsDefined, Walking, Children,
          Defined;
    ghost var env, start, s0, c0 := CurrentEnv(ctx.stacks), f.blocks, ctx.stacks, ctx.counters;
    BlockUntouched(t, b, blocks0, f.blocks, done);
    ReadsHere(t, blocks0, b, f.blocks[b], parameters, env.Keys);
    var defs;
    ghost var b1;
    envs := map[];
    ok, defs, b1 := RenameOwn(f, b, ctx);
    if !ok {
      return;
    }
    ghost var out, s1 := CurrentEnv(ctx.stacks), ctx.stacks;
    envs := map[b := env];
    PassKeys(start, f.blocks, envs);
    WalkingStarts(t, b, env, blocks0, parameters, done, start, b1, f.blocks, c0, ctx.counters);
    StacksAgree(s1);
    var childSet := ChildSet(t, b);
    var children := AnyOrder(childSet);
    assert ToSet(children[..0]) == {};
    for k := 0 to |children|
      invariant ok && SameStacks(s1, ctx.stacks)
      invariant Walking(t, b, env, out, blocks0, parameters, done, start, f.blocks, envs, c0, ctx.counters,
          ToSet(children[..k]))
    {
      var c := children[k];
      PrefixGrows(children, k);
      NotBefore(children, k);
      ghost var blocks1, e1, c1 := f.blocks, envs, ctx.counters;
      ChildReady(t, b, env, out, blocks0, parameters, done, start, blocks1, e1, c0, c1, ToSet(children[..k]), c);
      AvailableToChild(t, blocks0, parameters, b, c);
      SameStacksSameEnv(s1, ctx.stacks);
      ghost var e2, s2 := map[], ctx.stacks;
      ok, e2 := RecursiveRename(f, c, t, ctx, bound, blocks0, parameters, done + e1.Keys);
      if !ok {
        return;
      }
      StacksChain(s1, s2, ctx.stacks);
      WalkingGoesOn(t, b, env, out, blocks0, parameters, done, start, blocks1, e1, c0, c1, ToSet(children[..k]), c,
                    f.blocks, e2, ctx.counters);
      envs := e1 + e2;
    }
    assert children[..|children|] == children;
    WalkingDone(t, b, env, out, blocks0, parameters, done, start, f.blocks, envs, c0, ctx.counters);
    PushedSame(s0, s1, ctx.stacks, defs);
    PopAll(ctx, defs, s0);
  }

  method ChildSet(t: Links, b: Node) returns (r: set<Node>)
    ensures r == Children(t, b)
  {
    r := set c | c in t.idom && c != t.entry && t.idom[c] == b;
  }

  lemma StacksAgree(s: Stacks)
    ensures SameStacks(s, s)
  {
  }

  lemma StacksChain(s0: Stacks, s1: Stacks, s2: Stacks)
    requires SameStacks(s0, s1) && SameStacks(s1, s2)
    ensures SameStacks(s0, s2)
  {
    hide StackOf;
    forall x ensures StackOf(s0, x) == StackOf(s2, x) {
      assert StackOf(s0, x) == StackOf(s1, x) && StackOf(s1, x) == StackOf(s2, x);
    }
  }

  // ---------------------------------------------------------------------------
  // Renaming a function
  // ---------------------------------------------------------------------------

  /** The environment at the entry: the parameters have their first versions. */
  function ParameterEnv(parameters: seq<Symbol>): Env {
    map x | x in parameters :: 0
  }

  method DefineParameters(parameters: seq<Symbol>, ctx: RenamingContext)
    requires Distinct(parameters) && ctx.counters == map[] && ctx.stacks == map[]
    modifies ctx
    ensures CurrentEnv(ctx.stacks) == ParameterEnv(parameters)
    ensures forall x :: Count(ctx.counters, x) == if x in parameters then 1 else 0
  {
    for i := 0 to |parameters|
      invariant CurrentEnv(ctx.stacks) == ParameterEnv(parameters[..i])
      invariant forall x :: Count(ctx.counters, x) == if x in parameters[..i] then 1 else 0
    {
      assert parameters[..i + 1] == parameters[..i] + [parameters[i]];
      NotBefore(parameters, i);
      assert parameters[i] !in parameters[..i] by {
        assert forall x :: x in parameters[..i] <==> x in ToSet(parameters[..i]);
      }
      PushBinds(ctx.stacks, parameters[i], 0);
      var v := ctx.Define(parameters[i]);
    }
    assert parameters[..|parameters|] == parameters;
  }

  /** The renamed function: every block from its link's environment, and no register defined twice. */
  ghost predicate RenamedFunction(
      t: Links, parameters: seq<Symbol>, blocks0: Blocks, blocks1: Blocks, envs: map<BlockId, Env>, c0: Counters,
      c1: Counters)
  {
    && envs.Keys == t.idom.Keys
    && Walked(t, t.entry, ParameterEnv(parameters), blocks0, blocks1, envs, c0, c1)
    && forall x :: x in parameters ==> Count(c0, x) == 1
  }

  /**
   * SSA renaming of a function. It succeeds exactly when every read is of a symbol
   * that a parameter, a block up the tree or the block itself defines, where a phi
   * node counts as a definition; then the stacks are as they were when the
   * parameters had been defined.
   */
  method SsaVariableRenaming(f: SsaFunction, t: Links, ghost order: seq<Node>)
    returns (ok: bool, ghost envs: map<BlockId, Env>, ghost c0: Counters, ghost c1: Counters)
    requires Final(FlowGraph(f.blocks, f.entry), order, t)
    requires SuccessorsOk(f.blocks) && Distinct(f.parameters)
    modifies f`blocks
    ensures ok ==> RenamedFunction(t, f.parameters, old(f.blocks), f.blocks, envs, c0, c1)
    ensures Rooted(t) && t.idom.Keys <= old(f.blocks).Keys
    ensures ok <==> forall b :: b in t.idom ==> ReadsDefined(t, old(f.blocks), ToSet(f.parameters), b)
  {
    hide Final, Rooted, Injective, SuccessorsOk, Untouched, CurrentEnv, Subtree, Available, ReadsDefined, Walked,
        SameStacks;
    RenamingStarts(f.blocks, f.entry, order, t, ToSet(f.parameters));
    var ctx := new RenamingContext();
    DefineParameters(f.parameters, ctx);
    c0 := ctx.counters;
    assert ParameterEnv(f.parameters).Keys == ToSet(f.parameters);
    ok, envs := RecursiveRename(f, f.entry, t, ctx, |order|, f.blocks, ToSet(f.parameters), {});
    c1 := ctx.counters;
  }

  lemma RenamingStarts(blocks: Blocks, entry: BlockId, order: seq<Node>, t: Links, parameters: set<Symbol>)
    requires Final(FlowGraph(blocks, entry), order, t)
    ensures Rooted(t) && Injective(t.idx) && t.entry == entry && entry in t.idom && t.idom.Keys <= blocks.Keys
    ensures Subtree(t, entry) == t.idom.Keys && Untouched(blocks, blocks, {})
    ensures forall x :: x in t.idx ==> t.idx[x] < |order|
    ensures Available(t, blocks, parameters, entry) == parameters
  {
    hide Final, Rooted, Injective, Subtree, Available, Untouched;
    TreeStarts(blocks, entry, order, t);
    WholeTree(t);
    AtTheEntry(t, blocks, parameters);
  }

  lemma AtTheEntry(t: Links, blocks: Blocks, parameters: set<Symbol>)
    requires Rooted(t) && t.entry in t.idom && t.idom.Keys <= blocks.Keys
    ensures Available(t, blocks, parameters, t.entry) == parameters && Untouched(blocks, blocks, {})
  {
  }

  /** Everything hangs below the entry. */
  lemma WholeTree(t: Links)
    requires Rooted(t)
    ensures Subtree(t, t.entry) == t.idom.Keys
  {
  }

  lemma TreeStarts(blocks: Blocks, entry: BlockId, order: seq<Node>, t: Links)
    requires Final(FlowGraph(blocks, entry), order, t)
    ensures Rooted(t) && Injective(t.idx) && t.entry == entry && entry in t.idom && t.idom.Keys <= blocks.Keys
    ensures forall x :: x in t.idx ==> t.idx[x] < |order|
  {
    hide Settled, Reaches, Dominates, Laws;
    Positions(FlowGraph(blocks, entry), order, t);
    assert t.idom.Keys <= FlowGraph(blocks, entry).pred.Keys;
  }
}
