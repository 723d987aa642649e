/**
 * The storage analysis of one function (analyzer/src/storage.rs): instrumentation first,
 * then the checks-effects-interactions check on the instrumented code. The
 * inserted instructions do not change the verdict.
 */
module StorageAnalysis {
  import opened Wrappers
  import opened Graphs
  import opened Ssa
  import opened PhiPlacement
  import opened Storage
  import opened Cei
  import CallGraph

  predicate Inserted(inst: Instruction) {
    inst.Fold? || inst.Unfold?
  }

  /** Where an instruction of the instrumented block stood before. */
  function Before(insts: seq<Instruction>, i: nat): nat
    requires i <= |insts|
  {
    |Erased(insts[..i])|
  }

  lemma BeforeNext(insts: seq<Instruction>, i: nat)
    requires i < |insts|
    ensures Before(insts, i + 1) == Before(insts, i) + if Inserted(insts[i]) then 0 else 1
    ensures !Inserted(insts[i]) ==> Erased(insts[..i + 1]) == Erased(insts[..i]) + [insts[i]]
    ensures Inserted(insts[i]) ==> Erased(insts[..i + 1]) == Erased(insts[..i])
  {
    assert insts[..i + 1][..i] == insts[..i];
  }

  lemma {:induction false} ErasedGrows(insts: seq<Instruction>, i: nat, j: nat)
    requires i <= j <= |insts|
    ensures Before(insts, i) <= Before(insts, j)
    ensures Erased(insts[..i]) == Erased(insts[..j])[..Before(insts, i)]
    decreases j
  {
    if i < j {
      ErasedGrows(insts, i, j - 1);
      BeforeNext(insts, j - 1);
    }
  }

  /** What was there stands at its old place once the insertions are erased. */
  lemma KeptAt(insts: seq<Instruction>, i: nat)
    requires i < |insts| && !Inserted(insts[i])
    ensures Before(insts, i) < |Erased(insts)| && Erased(insts)[Before(insts, i)] == insts[i]
  {
    hide Erased;
    BeforeNext(insts, i);
    ErasedGrows(insts, i + 1, |insts|);
    assert insts[..|insts|] == insts;
    assert Erased(insts[..i + 1])[Before(insts, i)] == insts[i];
  }

  /** Everything that stands there now stood somewhere. */
  lemma {:induction false} KeptFrom(insts: seq<Instruction>, n: nat, j: nat) returns (i: nat)
    requires n <= |insts| && j < Before(insts, n)
    ensures i < n && !Inserted(insts[i]) && Before(insts, i) == j
    decreases n
  {
    assert n > 0;
    BeforeNext(insts, n - 1);
    if j == Before(insts, n - 1) {
      i := n - 1;
    } else {
      i := KeptFrom(insts, n - 1, j);
    }
  }

  lemma SameOrder(insts: seq<Instruction>, i: nat, k: nat)
    requires i < |insts| && k < |insts| && !Inserted(insts[i]) && !Inserted(insts[k])
    ensures i < k <==> Before(insts, i) < Before(insts, k)
  {
    BeforeNext(insts, i);
    BeforeNext(insts, k);
    if i < k {
      ErasedGrows(insts, i + 1, k);
    } else {
      ErasedGrows(insts, k, i);
    }
  }

  /** A store stands behind an instruction exactly if it did before. */
  lemma StoresBehind(insts: seq<Instruction>, i: nat)
    requires i < |insts| && !Inserted(insts[i])
    ensures WriteIn(insts, i + 1, Itself) <==> WriteIn(Erased(insts), Before(insts, i) + 1, Itself)
  {
    hide Erased;
    if k :| i + 1 <= k < |insts| && Writes(insts[k], Itself) {
      KeptAt(insts, k);
      SameOrder(insts, i, k);
    }
    if j :| Before(insts, i) + 1 <= j < |Erased(insts)| && Writes(Erased(insts)[j], Itself) {
      assert insts[..|insts|] == insts;
      var k := KeptFrom(insts, |insts|, j);
      KeptAt(insts, k);
      SameOrder(insts, i, k);
    }
  }

  lemma StoresAnywhere(insts: seq<Instruction>)
    ensures WriteIn(insts, 0, Itself) <==> WriteIn(Erased(insts), 0, Itself)
  {
    hide Erased;
    if k :| 0 <= k < |insts| && Writes(insts[k], Itself) {
      KeptAt(insts, k);
    }
    if j :| 0 <= j < |Erased(insts)| && Writes(Erased(insts)[j], Itself) {
      assert insts[..|insts|] == insts;
      var k := KeptFrom(insts, |insts|, j);
      KeptAt(insts, k);
    }
  }

  /** Only bodies differ, and they erase to the old ones. */
  ghost predicate ErasesTo(blocks0: Blocks, blocks1: Blocks) {
    blocks1.Keys == blocks0.Keys &&
    forall b :: b in blocks0 ==>
      blocks1[b] == blocks0[b].(body := blocks1[b].body) && Erased(blocks1[b].body) == blocks0[b].body
  }

  lemma SameGraph(blocks0: Blocks, blocks1: Blocks, entry: BlockId)
    requires ErasesTo(blocks0, blocks1)
    ensures FlowGraph(blocks0, entry) == FlowGraph(blocks1, entry)
  {
    hide Erased;
  }

  lemma SameVerdictAt(g: Graph, blocks0: Blocks, blocks1: Blocks, b: BlockId, i: nat)
    requires ErasesTo(blocks0, blocks1) && b in blocks0 && i < |blocks1[b].body| && !Inserted(blocks1[b].body[i])
    ensures WriteAfterCall(g, blocks1, b, i, Itself) <==>
        WriteAfterCall(g, blocks0, b, Before(blocks1[b].body, i), Itself)
  {
    hide Erased, WriteIn;
    StoresBehind(blocks1[b].body, i);
    forall c | c in blocks0 ensures WriteIn(blocks1[c].body, 0, Itself) <==> WriteIn(blocks0[c].body, 0, Itself) {
      StoresAnywhere(blocks1[c].body);
    }
  }

  /** The check says of the instrumented block what it says of the block as written. */
  lemma SameVerdict(g: Graph, blocks0: Blocks, blocks1: Blocks, b: BlockId, marked: set<nat>)
    requires ErasesTo(blocks0, blocks1) && b in blocks0
    ensures BlockClean(g, blocks0, b, marked) <==> BlockClean(g, blocks1, b, marked)
  {
    hide WriteAfterCall, Erased, Before;
    var insts := blocks1[b].body;
    if BlockClean(g, blocks0, b, marked) {
      forall i | 0 <= i < |insts| && Bracketed(insts[i], marked) ensures !WriteAfterCall(g, blocks1, b, i, Itself) {
        KeptAt(insts, i);
        SameVerdictAt(g, blocks0, blocks1, b, i);
      }
    }
    if BlockClean(g, blocks1, b, marked) {
      forall j | 0 <= j < |blocks0[b].body| && Bracketed(blocks0[b].body[j], marked)
        ensures !WriteAfterCall(g, blocks0, b, j, Itself)
      {
        BeforeAll(insts);
        var i := KeptFrom(insts, |insts|, j);
        KeptAt(insts, i);
        SameVerdictAt(g, blocks0, blocks1, b, i);
      }
    }
  }

  lemma BeforeAll(insts: seq<Instruction>)
    ensures Before(insts, |insts|) == |Erased(insts)|
  {
    assert insts[..|insts|] == insts;
  }

  lemma InstrumentedErases(blocks0: Blocks, blocks1: Blocks, locations: Locations, reentrant: set<nat>)
    requires Instrumented(blocks0, blocks1, locations, reentrant)
    ensures ErasesTo(blocks0, blocks1)
  {
    hide Erased, Disciplined;
  }

  // ---------------------------------------------------------------------------
  // Whole runs
  // ---------------------------------------------------------------------------

  /** The instructions met along a sequence of blocks. */
  function Trace(blocks: Blocks, p: seq<BlockId>): seq<Instruction>
    requires forall k :: 0 <= k < |p| ==> p[k] in blocks
  {
    if p == [] then [] else Trace(blocks, p[..|p| - 1]) + blocks[p[|p| - 1]].body
  }

  lemma {:induction false} StateJoins(a: seq<Instruction>, b: seq<Instruction>)
    requires StateAfter(a) == {}
    ensures StateAfter(a + b) == StateAfter(b)
    ensures Erased(a + b) == Erased(a) + Erased(b)
    decreases |b|
  {
    if b == [] {
      assert a + b == a;
    } else {
      var n := |b| - 1;
      StateJoins(a, b[..n]);
      assert (a + b)[..|a + b| - 1] == a + b[..n] && (a + b)[|a + b| - 1] == b[n];
    }
  }

  lemma AllowedJoins(a: seq<Instruction>, b: seq<Instruction>, locations: Locations, reentrant: set<nat>)
    requires StateAfter(a) == {} && AllAllowed(a, locations, reentrant) && AllAllowed(b, locations, reentrant)
    ensures AllAllowed(a + b, locations, reentrant)
  {
    hide Allowed, StateAfter;
    forall i | 0 <= i < |a + b| ensures Allowed((a + b)[i], StateAfter((a + b)[..i]), locations, reentrant) {
      if i < |a| {
        assert (a + b)[..i] == a[..i];
      } else {
        assert (a + b)[..i] == a + b[..i - |a|];
        StateJoins(a, b[..i - |a|]);
      }
    }
  }

  lemma FoldedJoins(a: seq<Instruction>, b: seq<Instruction>, locations: Locations, reentrant: set<nat>)
    requires StateAfter(a) == {} && CallsFolded(a, locations, reentrant) && CallsFolded(b, locations, reentrant)
    ensures CallsFolded(a + b, locations, reentrant)
  {
    hide Bracketed, StateAfter;
    forall i | 0 <= i < |a + b| && Bracketed((a + b)[i], reentrant) ensures FoldedBehind(a + b, i, locations) {
      if i < |a| {
        var k :| i < k <= |a| && FoldsUntil(a, i, k) && StateAfter(a[..k]) !! Mutable(locations);
        assert (a + b)[..k] == a[..k];
        assert FoldsUntil(a + b, i, k);
      } else {
        var at := i - |a|;
        var k :| at < k <= |b| && FoldsUntil(b, at, k) && StateAfter(b[..k]) !! Mutable(locations);
        assert (a + b)[..|a| + k] == a + b[..k];
        StateJoins(a, b[..k]);
        assert FoldsUntil(a + b, i, |a| + k);
      }
    }
  }

  /** Along any sequence of blocks the discipline holds throughout, and erasing gives what was written. */
  lemma {:induction false} RunsAreDisciplined(
      blocks0: Blocks, blocks1: Blocks, p: seq<BlockId>, locations: Locations, reentrant: set<nat>)
    requires Instrumented(blocks0, blocks1, locations, reentrant) && forall k :: 0 <= k < |p| ==> p[k] in blocks0
    ensures Disciplined(Trace(blocks1, p), locations, reentrant)
    ensures Erased(Trace(blocks1, p)) == Trace(blocks0, p)
    decreases |p|
  {
    hide AllAllowed, CallsFolded;
    if p == [] {
      NothingToDo(locations, reentrant);
    } else {
      var n := |p| - 1;
      var a, b := Trace(blocks1, p[..n]), blocks1[p[n]].body;
      RunsAreDisciplined(blocks0, blocks1, p[..n], locations, reentrant);
      StateJoins(a, b);
      AllowedJoins(a, b, locations, reentrant);
      FoldedJoins(a, b, locations, reentrant);
    }
  }

  lemma NothingToDo(locations: Locations, reentrant: set<nat>)
    ensures Disciplined([], locations, reentrant)
  {
  }

  // ---------------------------------------------------------------------------
  // What acceptance means for runs
  // ---------------------------------------------------------------------------

  /** A call that leads out of the contract through an unmarked function: bracketed, but not looked at by the check. */
  predicate Overlooked(inst: Instruction, marked: set<nat>, external: set<nat>) {
    inst.Call? && inst.target.Internal? && inst.target.fn in external && inst.target.fn !in marked
  }

  /**
   * Some run comes to instruction i of b, a call during which control may come back,
   * and behind it to a store or to a call of a function that leads to one.
   */
  ghost predicate WritesBehindCall(
      g: Graph, blocks: Blocks, b: BlockId, i: nat, reentrant: set<nat>, writers: set<nat>)
  {
    && b in blocks && i < |blocks[b].body| && Reaches(g, g.entry, b)
    && Bracketed(blocks[b].body[i], reentrant) && WriteOnSomeRun(g, blocks, b, i, Writers(true, writers))
  }

  /**
   * The three ways past the check: the call is overlooked and a store follows it; a
   * call of a writer follows it; or its block can be run again and writes at or before it.
   */
  ghost predicate SlipsThrough(
      g: Graph, blocks: Blocks, b: BlockId, i: nat, marked: set<nat>, external: set<nat>, writers: set<nat>)
  {
    && b in blocks && i < |blocks[b].body| && Reaches(g, g.entry, b) && Bracketed(blocks[b].body[i], marked + external)
    && ((Overlooked(blocks[b].body[i], marked, external) && WriteAfterCall(g, blocks, b, i, Itself))
        || WriteAfterCall(g, blocks, b, i, Writers(false, writers))
        || (OnCycle(g, b) && WriteBefore(blocks[b].body, i, Writers(true, writers))))
  }

  lemma WriteInSplits(insts: seq<Instruction>, from: nat, writers: set<nat>)
    ensures WriteIn(insts, from, Writers(true, writers)) <==>
            WriteIn(insts, from, Itself) || WriteIn(insts, from, Writers(false, writers))
  {
    if i :| from <= i < |insts| && Writes(insts[i], Writers(true, writers)) {
      assert Writes(insts[i], Itself) || Writes(insts[i], Writers(false, writers));
    }
    if i :| from <= i < |insts| && (Writes(insts[i], Itself) || Writes(insts[i], Writers(false, writers))) {
      assert Writes(insts[i], Writers(true, writers));
    }
  }

  /** A write behind a call is a store of the function itself, which the check sees, or a call of a writer. */
  lemma WriteSplits(g: Graph, blocks: Blocks, b: BlockId, i: nat, writers: set<nat>)
    requires b in blocks
    ensures WriteAfterCall(g, blocks, b, i, Writers(true, writers)) <==>
            WriteAfterCall(g, blocks, b, i, Itself) || WriteAfterCall(g, blocks, b, i, Writers(false, writers))
  {
    hide WriteIn, Reaches;
    WriteInSplits(blocks[b].body, i + 1, writers);
    forall c | c in blocks
      ensures WriteIn(blocks[c].body, 0, Writers(true, writers)) <==>
              WriteIn(blocks[c].body, 0, Itself) || WriteIn(blocks[c].body, 0, Writers(false, writers))
    {
      WriteInSplits(blocks[c].body, 0, writers);
    }
  }

  lemma AcceptedAt(
      g: Graph, blocks: Blocks, b: BlockId, i: nat, marked: set<nat>, external: set<nat>, writers: set<nat>)
    requires g.succ.Keys == blocks.Keys && (b in blocks ==> BlockClean(g, blocks, b, marked))
    ensures WritesBehindCall(g, blocks, b, i, marked + external, writers) <==>
            SlipsThrough(g, blocks, b, i, marked, external, writers)
  {
    hide WriteOnSomeRun, WriteAfterCall, OnCycle, WriteBefore, Reaches;
    if b in blocks {
      CheckExactForRuns(g, blocks, b, i, Writers(true, writers));
      WriteSplits(g, blocks, b, i, writers);
    }
  }

  /**
   * An accepted function can write storage, itself or through the functions it calls,
   * behind a call during which control may come back if and only if some call slips through.
   */
  lemma AcceptedExactForRuns(g: Graph, blocks: Blocks, marked: set<nat>, external: set<nat>, writers: set<nat>)
    requires g.succ.Keys == blocks.Keys && forall b :: b in blocks ==> BlockClean(g, blocks, b, marked)
    ensures (exists b, i :: WritesBehindCall(g, blocks, b, i, marked + external, writers)) <==>
            (exists b, i :: SlipsThrough(g, blocks, b, i, marked, external, writers))
  {
    hide WritesBehindCall, SlipsThrough, BlockClean;
    if b, i :| WritesBehindCall(g, blocks, b, i, marked + external, writers) {
      AcceptedAt(g, blocks, b, i, marked, external, writers);
    }
    if b, i :| SlipsThrough(g, blocks, b, i, marked, external, writers) {
      AcceptedAt(g, blocks, b, i, marked, external, writers);
    }
  }

  /** A function that calls function 1 and then stores. */
  function CallThenStore(x: Symbol, value: Operand): Blocks {
    map[0 := Block([], [Call(None, Internal(1), []), StorageStore(x, value)], Return(None), [], [])]
  }

  /** A function that makes one external call. */
  function CallsOutside(member: nat): Blocks {
    map[0 := Block([], [Call(None, External(member), [])], Return(None), [], [])]
  }

  /**
   * The first way is real: a function in the default mode calls an unmarked function,
   * which leads out of the contract, and then stores. The check is content.
   */
  lemma UnmarkedCalleeIsAccepted(x: Symbol, value: Operand, member: nat)
    ensures var blocks := CallThenStore(x, value);
            var contract := map[0 := blocks, 1 := CallsOutside(member)];
            var g := FlowGraph(blocks, 0);
            && CallGraph.Complete(contract) && CallGraph.LeadsOut(contract, 1) && WellLinked(g)
            && BlockClean(g, blocks, 0, {}) && WritesBehindCall(g, blocks, 0, 0, {1}, {0})
            && SlipsThrough(g, blocks, 0, 0, {}, {1}, {0})
  {
    hide CallGraph.LeadsOut, CallGraph.Complete, WritesBehindCall;
    var blocks := CallThenStore(x, value);
    var g := FlowGraph(blocks, 0);
    FirstLeadsOut(blocks, x, value, member);
    assert g.succ[0] == [] && g.pred[0] == [];
    assert Writes(blocks[0].body[1], Itself) && WriteIn(blocks[0].body, 1, Itself);
    ReachesItself(g, 0);
    assert {} + {1} == {1};
    AcceptedAt(g, blocks, 0, 0, {}, {1}, {0});
  }

  lemma FirstLeadsOut(blocks: Blocks, x: Symbol, value: Operand, member: nat)
    requires blocks == CallThenStore(x, value)
    ensures var contract := map[0 := blocks, 1 := CallsOutside(member)];
            CallGraph.Complete(contract) && CallGraph.LeadsOut(contract, 1)
  {
    var contract := map[0 := blocks, 1 := CallsOutside(member)];
    var call := Call(None, External(member), []);
    assert CallsOutside(member)[0].body[0] == call;
    assert CallGraph.HasInstruction(contract[1], call) && CallGraph.CallsExternally(call);
    CallGraph.LeadsOutDirectly(contract, 1);
  }

  /** A function that makes an external call and then calls function 1. */
  function CallOutThenIn(member: nat): Blocks {
    map[0 := Block([], [Call(None, External(member), []), Call(None, Internal(1), [])], Return(None), [], [])]
  }

  /** A function that stores. */
  function Stores(x: Symbol, value: Operand): Blocks {
    map[0 := Block([], [StorageStore(x, value)], Return(None), [], [])]
  }

  /**
   * The second way is real: a function makes an external call and then calls one that
   * stores. Both are in the default mode, and the check accepts both.
   */
  lemma StoringCalleeIsAccepted(x: Symbol, value: Operand, member: nat)
    ensures var caller, callee := CallOutThenIn(member), Stores(x, value);
            var contract := map[0 := caller, 1 := callee];
            var g, h := FlowGraph(caller, 0), FlowGraph(callee, 0);
            && CallGraph.Complete(contract) && CallGraph.LeadsToStore(contract, 1) && WellLinked(g) && WellLinked(h)
            && BlockClean(g, caller, 0, {}) && BlockClean(h, callee, 0, {})
            && WritesBehindCall(g, caller, 0, 0, {}, {1}) && SlipsThrough(g, caller, 0, 0, {}, {}, {1})
  {
    hide CallGraph.LeadsToStore, CallGraph.Complete, WritesBehindCall;
    var caller, callee := CallOutThenIn(member), Stores(x, value);
    var g, h := FlowGraph(caller, 0), FlowGraph(callee, 0);
    SecondStores(x, value, member);
    assert g.succ[0] == [] && g.pred[0] == [] && h.succ[0] == [] && h.pred[0] == [];
    assert caller[0].body[0] == Call(None, External(member), []);
    assert Writes(caller[0].body[1], Writers(false, {1})) && WriteIn(caller[0].body, 1, Writers(false, {1}));
    ReachesItself(g, 0);
    var none: set<nat> := {};
    assert none + none == none;
    AcceptedAt(g, caller, 0, 0, {}, {}, {1});
  }

  lemma SecondStores(x: Symbol, value: Operand, member: nat)
    ensures var contract := map[0 := CallOutThenIn(member), 1 := Stores(x, value)];
            CallGraph.Complete(contract) && CallGraph.LeadsToStore(contract, 1)
  {
    var contract := map[0 := CallOutThenIn(member), 1 := Stores(x, value)];
    var store := StorageStore(x, value);
    assert Stores(x, value)[0].body[0] == store;
    assert CallGraph.HasInstruction(contract[1], store);
    CallGraph.StoresDirectly(contract, 1);
  }

  /**
   * `analyze_storage` up to the check for immutable variables. Every block of the
   * function is instrumented with the discipline, for calls that leave the contract
   * directly, through others, or to a function marked reentrant. The check looks at
   * fewer calls, the external ones and those to functions marked reentrant: a
   * function in the default mode is accepted exactly if, as written, no store
   * of its own follows one of these in its block or in another block it reaches. What
   * an accepted function can still do, itself or through the functions it calls, is
   * stated over its runs.
   */
  method AnalyzeStorage(
      contract: CallGraph.Contract, f: SsaFunction, locations: Locations, mode: Modifier, marked: set<nat>)
    returns (ok: bool, ghost external: set<nat>, ghost writers: set<nat>)
    requires CallGraph.Complete(contract)
    requires f.entry in f.blocks && WellLinked(FlowGraph(f.blocks, f.entry))
    requires forall b :: b in f.blocks ==> Plain(f.blocks[b].body, locations)
    modifies f`blocks
    ensures forall g :: g in external <==> g in contract && CallGraph.LeadsOut(contract, g)
    ensures forall g :: g in writers <==> g in contract && CallGraph.LeadsToStore(contract, g)
    ensures Instrumented(old(f.blocks), f.blocks, locations, marked + external)
    ensures ok <==> mode != CheckedMode || forall b :: b in old(f.blocks) ==>
                      BlockClean(FlowGraph(old(f.blocks), f.entry), old(f.blocks), b, marked)
    ensures ok && mode == CheckedMode ==>
              var g := FlowGraph(old(f.blocks), f.entry);
              (exists b, i :: WritesBehindCall(g, old(f.blocks), b, i, marked + external, writers)) <==>
              (exists b, i :: SlipsThrough(g, old(f.blocks), b, i, marked, external, writers))
  {
    hide Plain, Instrumented, BlockClean, WritesBehindCall, SlipsThrough, CallGraph.LeadsToStore, CallGraph.LeadsOut,
        Reaches, Carrying, Transfer;
    ghost var start := f.blocks;
    var leads := CallGraph.Analyze(contract);
    external := leads;
    writers := set g | g in contract && CallGraph.LeadsToStore(contract, g);
    EdgesInside(f.blocks, f.entry);
    var entries, exits := ComputeStorageStates(f.blocks, f.entry, leads);
    InsertFoldUnfold(f, entries, locations, marked + leads);
    InstrumentedErases(start, f.blocks, locations, marked + leads);
    SameGraph(start, f.blocks, f.entry);
    ok := ValidateCeiPattern(f.blocks, f.entry, mode, marked);
    forall b | b in start
      ensures BlockClean(FlowGraph(start, f.entry), start, b, marked) <==>
              BlockClean(FlowGraph(start, f.entry), f.blocks, b, marked)
    {
      SameVerdict(FlowGraph(start, f.entry), start, f.blocks, b, marked);
    }
    if ok && mode == CheckedMode {
      AcceptedExactForRuns(FlowGraph(start, f.entry), start, marked, leads, writers);
    }
  }

  lemma EdgesInside(blocks: Blocks, entry: BlockId)
    requires WellLinked(FlowGraph(blocks, entry))
    ensures forall b, c :: b in blocks && (c in blocks[b].successors || c in blocks[b].predecessors) ==> c in blocks
  {
    var g := FlowGraph(blocks, entry);
    forall b, c | b in blocks && (c in blocks[b].successors || c in blocks[b].predecessors) ensures c in blocks {
      assert g.succ[b] == blocks[b].successors && g.pred[b] == blocks[b].predecessors;
      assert if c in blocks[b].successors then Edge(g, b, c) else Edge(g, c, b);
    }
  }
}
