/**
 * A function that loses a slot on the else edge of its branch. The compiler's own
 * liveness and allocation give it the layouts with which `ElseEdgeLosesSlot` shows the
 * fall-through to go wrong.
 */
module LostSlot {
  import opened Wrappers
  import opened Sequences
  import opened Lowered
  import opened LiveSets
  import opened Graphs
  import opened Liveness
  import opened Intervals
  import opened Codegen
  import opened Allocator

  /** One slot, assigned before a branch and returned only on its else side. */
  function LosingFunction(): Cfg {
    Cfg(map[
      0 := Block([LoadConstant(0, IntConst(7))], Branch(Literal(BoolConst(false)), 1, 2), [], [1, 2]),
      1 := Block([], Return(Some(Literal(IntConst(0)))), [0], []),
      2 := Block([], Return(Some(Operand.Location(0))), [0], [])
    ], 0)
  }

  lemma LosingFunctionEdges()
    ensures var cfg := LosingFunction();
            && (forall b, s {:trigger s in cfg.blocks[b].successors} ::
                  b in cfg.blocks ==> (s in cfg.blocks[b].successors <==> b == 0 && (s == 1 || s == 2)))
            && (forall b, p {:trigger p in cfg.blocks[b].predecessors} ::
                  b in cfg.blocks ==> (p in cfg.blocks[b].predecessors <==> p == 0 && (b == 1 || b == 2)))
            && (forall b, s {:trigger s in TerminatorTargets(cfg.blocks[b].terminator)} ::
                  b in cfg.blocks ==> (s in TerminatorTargets(cfg.blocks[b].terminator) <==>
                      b == 0 && (s == 1 || s == 2)))
  {
    var cfg := LosingFunction();
    assert cfg.blocks[0].successors[0] == 1 && cfg.blocks[0].successors[1] == 2;
    assert cfg.blocks[1].predecessors[0] == 0 && cfg.blocks[2].predecessors[0] == 0;
    var targets := TerminatorTargets(cfg.blocks[0].terminator);
    assert targets[0] == 1 && targets[1] == 2;
  }

  lemma LosingFunctionWellFormed()
    ensures WellFormed(LosingFunction())
  {
    hide TerminatorTargets;
    LosingFunctionEdges();
    IsWellFormed(LosingFunction());
  }

  /** Whatever solves its liveness equations, the slot is live into the else block and not into the then block. */
  lemma LosingFunctionLive(live: LiveInfo)
    requires Solution(LosingFunction(), live)
    ensures live.liveIn[0] == {} && live.liveIn[1] == {} && live.liveIn[2] == {0}
    ensures live.liveOut[0] == {0} && live.liveOut[1] == {} && live.liveOut[2] == {}
  {
    var cfg := LosingFunction();
    LosingFunctionEdges();
    assert EquationsAt(cfg, live, 0) && EquationsAt(cfg, live, 1) && EquationsAt(cfg, live, 2);
    LosingTransfer(1, {}, live);
    LosingTransfer(2, {}, live);
    assert live.liveOut[0] == {0};
    LosingTransfer(0, {0}, live);
  }

  lemma LosingTransfer(b: BlockId, out: set<Slot>, live: LiveInfo)
    requires b in LosingFunction().blocks && out == if b == 0 then {0} else {}
    ensures Gen(LosingFunction().blocks[b]) + (out - Kill(LosingFunction().blocks[b])) == if b == 2 then {0} else {}
  {
    var block := LosingFunction().blocks[b];
    BlockTransfer(block, out);
    var os := TerminatorOperands(block.terminator);
    assert os[0] == if b == 0 then Literal(BoolConst(false)) else if b == 1 then Literal(IntConst(0))
        else Operand.Location(0);
    if b == 0 {
      assert block.instructions[1..] == [];
    }
  }

  /** All points of the function's intervals are points of the one slot. */
  lemma OnlyOneSlot(live: LiveInfo, ranges: map<BlockId, Range>, b: BlockId, s: Slot, i: nat)
    requires Solution(LosingFunction(), live) && b in LosingFunction().blocks && b in ranges
    requires live.liveIn[b] <= {0} && live.liveOut[b] <= {0}
    requires (s, i) in PointsOf(LosingFunction(), live, ranges, b)
    ensures s == 0
  {
    var block := LosingFunction().blocks[b];
    var os := TerminatorOperands(block.terminator);
    assert os[0] == if b == 0 then Literal(BoolConst(false)) else if b == 1 then Literal(IntConst(0))
        else Operand.Location(0);
    if b == 0 {
      assert block.instructions[1..] == [];
    }
  }

  lemma DefinedAtEntry(live: LiveInfo, ranges: map<BlockId, Range>)
    requires Solution(LosingFunction(), live) && 0 in ranges
    ensures (0, ranges[0].start) in PointsOf(LosingFunction(), live, ranges, 0)
  {
  }

  lemma OneSlotOnStack(
      live: LiveInfo, intervals: map<Slot, Interval>, ranges: map<BlockId, Range>, assignment: map<Slot, SlotLocation>)
    requires Solution(LosingFunction(), live) && Numbering(LosingFunction(), ranges) && 0 in ranges
    requires forall b :: b in LosingFunction().blocks ==> live.liveIn[b] <= {0} && live.liveOut[b] <= {0}
    requires Hull(intervals, AllPoints(LosingFunction(), live, ranges)) && Safe(intervals, assignment)
    requires (exists s :: s in assignment && assignment[s] == Memory) <==>
        PressureAtLeast(intervals, MAX_STACK_REGS + 1)
    ensures Positioned(assignment, 0)
  {
    SolutionKeys(LosingFunction(), live);
    hide Solution, LosingFunction, PointsOf, AllPoints, PressureAtLeast, Numbering;
    DefinedAtEntry(live, ranges);
    AtEntryIsPoint(live, ranges);
    forall s | s in intervals ensures s == 0 {
      OnlyPoint(live, ranges, s, intervals[s].start);
    }
    LittlePressure(intervals);
  }

  lemma AtEntryIsPoint(live: LiveInfo, ranges: map<BlockId, Range>)
    requires Solution(LosingFunction(), live) && Numbering(LosingFunction(), ranges) && 0 in ranges
    requires (0, ranges[0].start) in PointsOf(LosingFunction(), live, ranges, 0)
    ensures (0, ranges[0].start) in AllPoints(LosingFunction(), live, ranges)
  {
    SolutionKeys(LosingFunction(), live);
    hide Solution, LosingFunction, PointsOf;
  }

  lemma OnlyPoint(live: LiveInfo, ranges: map<BlockId, Range>, s: Slot, i: nat)
    requires Solution(LosingFunction(), live) && Numbering(LosingFunction(), ranges)
    requires forall b :: b in LosingFunction().blocks ==> live.liveIn[b] <= {0} && live.liveOut[b] <= {0}
    requires (s, i) in AllPoints(LosingFunction(), live, ranges)
    ensures s == 0
  {
    SolutionKeys(LosingFunction(), live);
    hide Solution, LosingFunction, PointsOf;
    var b :| b in ranges && (s, i) in PointsOf(LosingFunction(), live, ranges, b);
    OnlyOneSlot(live, ranges, b, s, i);
  }

  lemma LittlePressure(intervals: map<Slot, Interval>)
    requires forall s :: s in intervals ==> s == 0
    ensures !PressureAtLeast(intervals, MAX_STACK_REGS + 1)
  {
    forall slots, idx | Meet(intervals, slots, idx) ensures |slots| <= 1 {
      assert forall s :: s in slots ==> s == 0;
      assert slots <= {0};
      SmallSet(slots);
    }
  }

  lemma SmallSet(slots: set<Slot>)
    requires slots <= {0}
    ensures |slots| <= 1
  {
    if 0 in slots {
      assert slots == {0};
    } else {
      assert slots == {};
    }
  }

  lemma AllZeros(l: seq<Slot>)
    requires Distinct(l) && forall s :: s in l ==> s == 0
    ensures |l| <= 1
  {
    if |l| > 1 {
      BothZero(l, 0, 1);
    }
  }

  lemma BothZero(l: seq<Slot>, i: nat, j: nat)
    requires i < |l| && j < |l| && forall s :: s in l ==> s == 0
    ensures l[i] == l[j]
  {
    assert l[i] in l && l[j] in l;
  }

  lemma OneSlotLayout(l1: seq<Slot>, l2: seq<Slot>, live: LiveInfo, assignment: map<Slot, SlotLocation>)
    requires 1 in live.liveIn && 2 in live.liveIn && live.liveIn[1] == {} && live.liveIn[2] == {0}
    requires LayoutOf(l1, live.liveIn[1], assignment) && LayoutOf(l2, live.liveIn[2], assignment)
        && Positioned(assignment, 0)
    ensures l1 == [] && l2 == [0]
  {
    assert l1 == [] by {
      if l1 != [] {
        HeadIn(l1);
        assert false;
      }
    }
    HeadIn(l2);
    AllZeros(l2);
  }

  /** So the compiler's own passes give the layouts of the lost slot. */
  method LosingLayouts() returns (alloc: Allocation)
    ensures Layout(alloc, LosingFunction().blocks[0].terminator.thenBlock) == []
    ensures Layout(alloc, LosingFunction().blocks[0].terminator.elseBlock) == [0]
  {
    hide WellFormed, Solution, LiveInto, Numbering, Hull, Safe, PressureAtLeast, PointsApart, Reaches, LayoutOf,
        AllPoints;
    LosingFunctionWellFormed();
    var cfg := LosingFunction();
    var live := AnalyzeLiveness(cfg);
    SolutionKeys(cfg, live);
    LosingFunctionLive(live);
    ghost var intervals, ranges;
    alloc, intervals, ranges := Allocate(cfg, live);
    GraphLinked(cfg);
    ReachesItself(GraphOf(cfg), 0);
    OneSlotOnStack(live, intervals, ranges, alloc.assignment);
    OneSlotLayout(alloc.entryLayout[1], alloc.entryLayout[2], live, alloc.assignment);
  }
}
