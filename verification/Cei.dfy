/**
 * The checks-effects-interactions check (analyzer/src/storage.rs): no store may follow a
 * call during which control may come back. The worklist decides this by block
 * reachability; how far that is exact for runs is stated as an equivalence.
 */
module Cei {
  import opened Wrappers
  import opened Sequences
  import opened Graphs
  import opened Ssa
  import opened Storage

  /** What counts as a write: the function's own stores, calls of some functions, or both. */
  datatype Writers = Writers(itself: bool, callees: set<nat>)

  /** All that the check sees: the function's own stores. */
  const Itself := Writers(true, {})

  predicate Writes(inst: Instruction, w: Writers) {
    || (w.itself && inst.StorageStore?)
    || (inst.Call? && inst.target.Internal? && inst.target.fn in w.callees)
  }

  predicate WriteIn(insts: seq<Instruction>, from: nat, w: Writers) {
    exists i :: from <= i < |insts| && Writes(insts[i], w)
  }

  predicate WriteBefore(insts: seq<Instruction>, upTo: nat, w: Writers) {
    exists i :: 0 <= i < |insts| && i <= upTo && Writes(insts[i], w)
  }

  /** A write behind the call in its own block, or anywhere in another block it reaches. */
  ghost predicate WriteAfterCall(g: Graph, blocks: Blocks, b: BlockId, idx: nat, w: Writers)
    requires b in blocks
  {
    || WriteIn(blocks[b].body, idx + 1, w)
    || exists c :: c in blocks && c != b && Reaches(g, b, c) && WriteIn(blocks[c].body, 0, w)
  }

  method FindStore(insts: seq<Instruction>, from: nat) returns (found: bool)
    requires from <= |insts|
    ensures found <==> WriteIn(insts, from, Itself)
  {
    found := false;
    for i := from to |insts|
      invariant !found && forall j :: from <= j < i ==> !insts[j].StorageStore?
    {
      if insts[i].StorageStore? {
        return true;
      }
    }
  }

  /** Blocks taken off the list have no store where the check looks, and their successors are on it or were on it. */
  ghost predicate Checked(
      g: Graph, blocks: Blocks, b: BlockId, idx: nat, visited: set<BlockId>, worklist: seq<(BlockId, nat)>)
  {
    && visited <= blocks.Keys && b in blocks
    && (forall k :: 0 <= k < |worklist| ==> worklist[k].0 in blocks && Reaches(g, b, worklist[k].0))
    && (forall k :: 0 <= k < |worklist| ==> worklist[k].1 == 0 || (worklist[k] == (b, idx + 1) && b !in visited))
    && (b !in visited ==> visited == {} && worklist == [(b, idx + 1)])
    && (forall c :: c in visited ==>
          Reaches(g, b, c) && !WriteIn(blocks[c].body, if c == b then idx + 1 else 0, Itself))
    && (forall c, d {:trigger Edge(g, c, d)} :: c in visited && Edge(g, c, d) ==> d in visited || Listed(worklist, d))
  }

  ghost predicate Listed(worklist: seq<(BlockId, nat)>, d: BlockId) {
    exists k :: 0 <= k < |worklist| && worklist[k].0 == d
  }

  /** The call's position is inside its block. */
  method CheckNoStoresAfterCall(blocks: Blocks, entry: BlockId, b: BlockId, idx: nat) returns (ok: bool)
    requires WellLinked(FlowGraph(blocks, entry)) && b in blocks && idx < |blocks[b].body|
    ensures ok <==> !WriteAfterCall(FlowGraph(blocks, entry), blocks, b, idx, Itself)
  {
    hide Checked, Reaches, WellLinked, WriteIn, WriteAfterCall, Listed;
    ghost var g := FlowGraph(blocks, entry);
    var visited: set<BlockId> := {};
    var worklist: seq<(BlockId, nat)> := [(b, idx + 1)];
    CheckStarts(blocks, entry, b, idx);
    while worklist != []
      invariant Checked(g, blocks, b, idx, visited, worklist)
      decreases blocks.Keys - visited, |worklist|
    {
      var (current, start) := worklist[|worklist| - 1];
      ghost var before := worklist;
      NextToCheck(g, blocks, b, idx, visited, worklist);
      worklist := worklist[..|worklist| - 1];
      if current !in visited {
        var found := FindStore(blocks[current].body, start);
        if found {
          FoundOne(g, blocks, b, idx, current, start);
          return false;
        }
        ghost var rest := worklist;
        var successors := blocks[current].successors;
        for k := 0 to |successors|
          invariant |worklist| == |rest| + k && worklist[..|rest|] == rest
          invariant forall j :: 0 <= j < k ==> worklist[|rest| + j] == (successors[j], 0)
        {
          worklist := worklist + [(successors[k], 0)];
        }
        CheckAdvances(blocks, entry, b, idx, visited, before, worklist, current, start);
        visited := visited + {current};
      } else {
        CheckSkips(g, blocks, b, idx, visited, before);
      }
    }
    CheckEnds(blocks, entry, b, idx, visited);
    ok := true;
  }

  lemma CheckStarts(blocks: Blocks, entry: BlockId, b: BlockId, idx: nat)
    requires WellLinked(FlowGraph(blocks, entry)) && b in blocks
    ensures Checked(FlowGraph(blocks, entry), blocks, b, idx, {}, [(b, idx + 1)])
  {
    ReachesItself(FlowGraph(blocks, entry), b);
  }

  lemma NextToCheck(
      g: Graph, blocks: Blocks, b: BlockId, idx: nat, visited: set<BlockId>, worklist: seq<(BlockId, nat)>)
    requires Checked(g, blocks, b, idx, visited, worklist) && worklist != [] && idx < |blocks[b].body|
    ensures var (c, start) := worklist[|worklist| - 1];
            && c in blocks && Reaches(g, b, c) && start <= |blocks[c].body|
            && (c !in visited ==> start == if c == b then idx + 1 else 0)
            && visited <= blocks.Keys
  {
    hide Reaches, WriteIn, Listed;
  }

  lemma FoundOne(g: Graph, blocks: Blocks, b: BlockId, idx: nat, c: BlockId, start: nat)
    requires b in blocks && c in blocks && Reaches(g, b, c) && start == (if c == b then idx + 1 else 0)
    requires WriteIn(blocks[c].body, start, Itself)
    ensures WriteAfterCall(g, blocks, b, idx, Itself)
  {
    hide Reaches, WriteIn;
  }

  lemma CheckSkips(g: Graph, blocks: Blocks, b: BlockId, idx: nat, visited: set<BlockId>, worklist: seq<(BlockId, nat)>)
    requires Checked(g, blocks, b, idx, visited, worklist) && worklist != [] && worklist[|worklist| - 1].0 in visited
    ensures Checked(g, blocks, b, idx, visited, worklist[..|worklist| - 1])
  {
    hide Reaches, WriteIn;
    var rest := worklist[..|worklist| - 1];
    forall c, d | c in visited && Edge(g, c, d) ensures d in visited || Listed(rest, d) {
      if d !in visited {
        var k :| 0 <= k < |worklist| && worklist[k].0 == d;
        assert rest[k].0 == d;
      }
    }
  }

  lemma CheckAdvances(
      blocks: Blocks, entry: BlockId, b: BlockId, idx: nat, visited: set<BlockId>,
      worklist: seq<(BlockId, nat)>, worklist': seq<(BlockId, nat)>, c: BlockId, start: nat)
    requires WellLinked(FlowGraph(blocks, entry)) && Checked(FlowGraph(blocks, entry), blocks, b, idx, visited,
        worklist)
    requires worklist != [] && worklist[|worklist| - 1] == (c, start) && c !in visited && c in blocks
    requires start == (if c == b then idx + 1 else 0) && !WriteIn(blocks[c].body, start, Itself)
    requires |worklist'| == |worklist| - 1 + |blocks[c].successors|
        && worklist'[..|worklist| - 1] == worklist[..|worklist| - 1]
    requires forall j :: 0 <= j < |blocks[c].successors| ==>
        worklist'[|worklist| - 1 + j] == (blocks[c].successors[j], 0)
    ensures Checked(FlowGraph(blocks, entry), blocks, b, idx, visited + {c}, worklist')
  {
    hide Reaches, WriteIn, WellLinked;
    var g := FlowGraph(blocks, entry);
    var n := |worklist| - 1;
    forall k | 0 <= k < n ensures worklist'[k] == worklist[k] {
      assert worklist'[..n][k] == worklist[..n][k];
    }
    SuccessorsReached(blocks, entry, b, c);
    forall k | 0 <= k < |worklist'|
      ensures worklist'[k].0 in blocks && Reaches(g, b, worklist'[k].0)
      ensures worklist'[k].1 == 0
    {
      if k >= n {
        assert worklist'[n + (k - n)] == (blocks[c].successors[k - n], 0);
      } else {
        assert worklist'[k] == worklist[k];
      }
    }
    forall x, d | x in visited + {c} && Edge(g, x, d) ensures d in visited + {c} || Listed(worklist', d) {
      if x == c {
        var j :| 0 <= j < |blocks[c].successors| && blocks[c].successors[j] == d;
        assert worklist'[n + j].0 == d;
      } else if d !in visited + {c} {
        var k :| 0 <= k < |worklist| && worklist[k].0 == d;
        assert worklist'[k].0 == d;
      }
    }
  }

  lemma SuccessorsReached(blocks: Blocks, entry: BlockId, b: BlockId, c: BlockId)
    requires WellLinked(FlowGraph(blocks, entry)) && c in blocks && Reaches(FlowGraph(blocks, entry), b, c)
    ensures forall d :: d in blocks[c].successors ==> d in blocks && Reaches(FlowGraph(blocks, entry), b, d)
  {
    hide Reaches;
    forall d | d in blocks[c].successors ensures d in blocks && Reaches(FlowGraph(blocks, entry), b, d) {
      assert Edge(FlowGraph(blocks, entry), c, d);
      ReachesFurther(FlowGraph(blocks, entry), b, c, d);
    }
  }

  lemma CheckEnds(blocks: Blocks, entry: BlockId, b: BlockId, idx: nat, visited: set<BlockId>)
    requires Checked(FlowGraph(blocks, entry), blocks, b, idx, visited, [])
    ensures !WriteAfterCall(FlowGraph(blocks, entry), blocks, b, idx, Itself)
  {
    hide Reaches, WriteIn;
    var g := FlowGraph(blocks, entry);
    forall c, d | c in visited && Edge(g, c, d) ensures d in visited {
      assert !Listed([], d);
    }
    ClosedContainsReached(g, visited, b);
  }

  // ---------------------------------------------------------------------------
  // Runs
  // ---------------------------------------------------------------------------

  /** Control can run from behind the call through the blocks of p and meet a store in the last one. */
  ghost predicate WriteOnPath(g: Graph, blocks: Blocks, b: BlockId, idx: nat, p: seq<BlockId>, w: Writers) {
    && IsPath(g, p) && p[0] == b && p[|p| - 1] in blocks
    && WriteIn(blocks[p[|p| - 1]].body, if |p| == 1 then idx + 1 else 0, w)
  }

  ghost predicate WriteOnSomeRun(g: Graph, blocks: Blocks, b: BlockId, idx: nat, w: Writers) {
    exists p :: WriteOnPath(g, blocks, b, idx, p, w)
  }

  ghost predicate OnCycle(g: Graph, b: BlockId) {
    exists p :: IsPath(g, p) && |p| > 1 && p[0] == b && p[|p| - 1] == b
  }

  lemma ReachesByLongPath(g: Graph, b: BlockId, c: BlockId) returns (p: seq<BlockId>)
    requires Reaches(g, b, c) && b != c
    ensures PathBetween(g, p, b, c) && |p| > 1
  {
    p :| PathBetween(g, p, b, c);
  }

  /**
   * How exact the check is for runs: a run can store behind the call if and only if
   * the check finds a store, or the call's block lies on a cycle and stores at or
   * before the call. The second case is the one the check passes over.
   */
  lemma CheckExactForRuns(g: Graph, blocks: Blocks, b: BlockId, idx: nat, w: Writers)
    requires b in blocks && g.succ.Keys == blocks.Keys
    ensures WriteOnSomeRun(g, blocks, b, idx, w) <==>
            WriteAfterCall(g, blocks, b, idx, w) || (OnCycle(g, b) && WriteBefore(blocks[b].body, idx, w))
  {
    hide IsPath;
    if p :| WriteOnPath(g, blocks, b, idx, p, w) {
      PathEnds(g, p);
      var c := p[|p| - 1];
      if |p| > 1 && c != b {
        assert PathBetween(g, p, b, c);
      } else if |p| > 1 {
        WhereWritten(blocks[b].body, idx, w);
      }
    }
    if WriteAfterCall(g, blocks, b, idx, w) {
      WriteIsOnRun(g, blocks, b, idx, w);
    }
    if OnCycle(g, b) && WriteBefore(blocks[b].body, idx, w) {
      var p :| IsPath(g, p) && |p| > 1 && p[0] == b && p[|p| - 1] == b;
      BeforeIsWritten(blocks[b].body, idx, w);
      assert WriteOnPath(g, blocks, b, idx, p, w);
    }
  }

  lemma PathEnds(g: Graph, p: seq<BlockId>)
    requires IsPath(g, p)
    ensures p != []
  {
  }

  lemma WhereWritten(insts: seq<Instruction>, idx: nat, w: Writers)
    ensures WriteIn(insts, 0, w) <==> WriteBefore(insts, idx, w) || WriteIn(insts, idx + 1, w)
  {
    if i :| 0 <= i < |insts| && Writes(insts[i], w) {
      assert Writes(insts[i], w);
    }
  }

  lemma BeforeIsWritten(insts: seq<Instruction>, idx: nat, w: Writers)
    requires WriteBefore(insts, idx, w)
    ensures WriteIn(insts, 0, w)
  {
  }

  lemma WriteIsOnRun(g: Graph, blocks: Blocks, b: BlockId, idx: nat, w: Writers)
    requires b in blocks && g.succ.Keys == blocks.Keys && WriteAfterCall(g, blocks, b, idx, w)
    ensures WriteOnSomeRun(g, blocks, b, idx, w)
  {
    hide WriteIn;
    if WriteIn(blocks[b].body, idx + 1, w) {
      assert WriteOnPath(g, blocks, b, idx, [b], w);
    } else {
      var c :| c in blocks && c != b && Reaches(g, b, c) && WriteIn(blocks[c].body, 0, w);
      var p := ReachesByLongPath(g, b, c);
      assert WriteOnPath(g, blocks, b, idx, p, w);
    }
  }

  /**
   * The gap is real: a block that stores, calls and jumps back to itself is accepted,
   * and its second round stores after the call.
   */
  lemma LoopIsAccepted(x: Symbol, value: Operand, member: nat)
    ensures var b := Block([], [StorageStore(x, value), Call(None, External(member), [])], Jump(0), [0], [0]);
            var blocks := map[0 := b];
            var g := FlowGraph(blocks, 0);
            !WriteAfterCall(g, blocks, 0, 1, Itself) && WriteOnSomeRun(g, blocks, 0, 1, Itself)
  {
    var b := Block([], [StorageStore(x, value), Call(None, External(member), [])], Jump(0), [0], [0]);
    var blocks := map[0 := b];
    var g := FlowGraph(blocks, 0);
    assert Edge(g, 0, 0);
    assert IsPath(g, [0, 0]);
    assert Writes(b.body[0], Itself);
    assert WriteOnPath(g, blocks, 0, 1, [0, 0], Itself);
  }

  // ---------------------------------------------------------------------------
  // A function
  // ---------------------------------------------------------------------------

  datatype Modifier = CheckedMode | GuardedMode | ReentrantMode

  /** No store follows an external call, or a call to a function in `marked`. */
  ghost predicate BlockClean(g: Graph, blocks: Blocks, b: BlockId, marked: set<nat>)
    requires b in blocks
  {
    forall i :: 0 <= i < |blocks[b].body| && Bracketed(blocks[b].body[i], marked) ==>
        !WriteAfterCall(g, blocks, b, i, Itself)
  }

  method CheckBlock(blocks: Blocks, entry: BlockId, b: BlockId, marked: set<nat>) returns (ok: bool)
    requires WellLinked(FlowGraph(blocks, entry)) && b in blocks
    ensures ok <==> BlockClean(FlowGraph(blocks, entry), blocks, b, marked)
  {
    hide WellLinked, WriteAfterCall, Bracketed;
    ghost var g := FlowGraph(blocks, entry);
    for i := 0 to |blocks[b].body|
      invariant forall j :: 0 <= j < i && Bracketed(blocks[b].body[j], marked) ==>
          !WriteAfterCall(g, blocks, b, j, Itself)
    {
      if Bracketed(blocks[b].body[i], marked) {
        ok := CheckNoStoresAfterCall(blocks, entry, b, i);
        if !ok {
          return;
        }
      }
    }
    ok := true;
  }

  /** Only functions in the default mode are checked; then every such call of every block is. */
  method ValidateCeiPattern(blocks: Blocks, entry: BlockId, mode: Modifier, marked: set<nat>) returns (ok: bool)
    requires WellLinked(FlowGraph(blocks, entry))
    ensures ok <==> mode != CheckedMode || forall b :: b in blocks ==>
        BlockClean(FlowGraph(blocks, entry), blocks, b, marked)
  {
    hide WellLinked, BlockClean, Distinct;
    ghost var g := FlowGraph(blocks, entry);
    if mode != CheckedMode {
      return true;
    }
    var ids := AnyOrder(blocks.Keys);
    for k := 0 to |ids|
      invariant forall b :: b in ToSet(ids[..k]) ==> b in blocks && BlockClean(g, blocks, b, marked)
    {
      PrefixGrows(ids, k);
      ok := CheckBlock(blocks, entry, ids[k], marked);
      if !ok {
        return;
      }
    }
    assert ids[..|ids|] == ids;
    ok := true;
  }
}
