/**
 * Every value is found in its home: the code generator never falls through to memory
 * for a slot that was assigned to the stack, neither for an operand nor for the
 * layout behind a jump or behind a taken branch.
 */
module Homes {
  import opened Wrappers
  import opened Sequences
  import opened Lowered
  import opened LiveSets
  import opened Shuffler
  import opened Codegen
  import opened InstructionProofs
  import opened Image

  /** What a block has put on the stack before its instruction i. */
  function BlockStackAt(insts: seq<Instruction>, i: nat, alloc: Allocation, entry: seq<Slot>): seq<Slot>
    requires i <= |insts|
  {
    if i == 0 then [] else BlockStackAfter(insts[i - 1], alloc, entry, BlockStackAt(insts, i - 1, alloc, entry))
  }

  lemma StoredStays(inst: Instruction, alloc: Allocation, entry: seq<Slot>, bs: seq<Slot>, s: Slot)
    requires OnStack(alloc, s) && (s in bs + entry || s in Defs(inst))
    ensures s in BlockStackAfter(inst, alloc, entry, bs) + entry
  {
  }

  /** Before every instruction, what is live and assigned to the stack is on it. */
  lemma {:induction false} LiveIsOnStack(u: Unit, live: LiveInfo, b: BlockId, i: nat, s: Slot)
    requires Solution(u.fn.cfg, live) && b in u.fn.cfg.blocks && b in live.liveIn && LayoutAt(u, live, b)
    requires i <= |u.fn.cfg.blocks[b].instructions| && OnStack(u.alloc, s)
    requires s in LiveBefore(u.fn.cfg.blocks[b].instructions[i..], u.fn.cfg.blocks[b].terminator, live.liveOut[b])
    ensures s in BlockStackAt(u.fn.cfg.blocks[b].instructions, i, u.alloc, Layout(u.alloc, b)) + Layout(u.alloc, b)
    decreases i
  {
    hide EquationsAt, Uses, Defs, Distinct;
    var insts := u.fn.cfg.blocks[b].instructions;
    if i == 0 {
      assert insts[0..] == insts;
      assert EquationsAt(u.fn.cfg, live, b);
      LiveInIsTransfer(u.fn.cfg, live, b);
    } else {
      assert insts[i - 1..][0] == insts[i - 1] && insts[i - 1..][1..] == insts[i..];
      var bs := BlockStackAt(insts, i - 1, u.alloc, Layout(u.alloc, b));
      if s !in Defs(insts[i - 1]) {
        LiveIsOnStack(u, live, b, i - 1, s);
      }
      StoredStays(insts[i - 1], u.alloc, Layout(u.alloc, b), bs, s);
    }
  }

  lemma LiveInIsTransfer(cfg: Cfg, live: LiveInfo, b: BlockId)
    requires Solution(cfg, live) && b in cfg.blocks
    ensures live.liveIn[b] == LiveBefore(cfg.blocks[b].instructions, cfg.blocks[b].terminator, live.liveOut[b])
  {
    hide Gen, Kill, LiveBefore;
    assert EquationsAt(cfg, live, b);
    BlockTransfer(cfg.blocks[b], live.liveOut[b]);
  }

  /** An operand assigned to the stack is read with a single DUP (or is too deep for one); memory is not touched. */
  lemma OperandIsDup(u: Unit, live: LiveInfo, b: BlockId, i: nat, s: Slot, extra: nat)
    requires Solution(u.fn.cfg, live) && b in u.fn.cfg.blocks && b in live.liveIn && LayoutAt(u, live, b)
    requires i < |u.fn.cfg.blocks[b].instructions| && s in Uses(u.fn.cfg.blocks[b].instructions[i])
        && OnStack(u.alloc, s)
    ensures var entry := Layout(u.alloc, b);
            var bs := BlockStackAt(u.fn.cfg.blocks[b].instructions, i, u.alloc, entry);
            && s in bs + entry
            && OperandCode(Location(s), u.base, entry, bs, extra)
                == DupCode(FirstIndex(bs + entry, s).value + 1 + extra)
  {
    hide Solution, LayoutAt, BlockStackAt, Uses;
    var insts := u.fn.cfg.blocks[b].instructions;
    assert insts[i..][0] == insts[i];
    SolutionKnown(u.fn.cfg, live, b);
    LiveIsOnStack(u, live, b, i, s);
    FirstIndexOfAppend(BlockStackAt(insts, i, u.alloc, Layout(u.alloc, b)), Layout(u.alloc, b), s);
  }

  lemma SolutionKnown(cfg: Cfg, live: LiveInfo, b: BlockId)
    requires Solution(cfg, live) && b in cfg.blocks
    ensures b in live.liveOut && b in live.liveIn
  {
  }

  ghost predicate NeverLoads(ops: seq<ShuffleOp>) {
    forall i :: 0 <= i < |ops| ==> !ops[i].MLoad?
  }

  lemma {:induction false} LoadsFromStack(sim: seq<Option<Slot>>, pre: seq<Slot>)
    requires forall t :: t in pre ==> Some(t) in sim
    ensures NeverLoads(Loads(sim, pre))
    decreases |pre|
  {
    if pre != [] {
      var n := |pre| - 1;
      assert pre[n] in pre;
      forall t | t in pre[..n] ensures Some(t) in [Some(pre[n])] + sim {
        assert t in pre;
      }
      LoadsFromStack([Some(pre[n])] + sim, pre[..n]);
    }
  }

  lemma {:induction false} DrainsNeverLoad(m: nat, n: nat)
    ensures NeverLoads(Drains(m, n)) && NeverLoads(Pops(m))
  {
    if m > 0 {
      DrainsNeverLoad(m - 1, n);
    }
  }

  lemma RotatedElements(target: seq<Slot>, m: nat)
    ensures forall t :: t in Rotated(target, m) ==> t in target
  {
  }

  /** A shuffle to slots that are all on the stack loads nothing from memory. */
  lemma ShuffleNeverLoads(current: seq<Slot>, target: seq<Slot>)
    requires forall t :: t in target ==> t in current
    ensures NeverLoads(Plan(Present(current), target))
  {
    hide Loads, Drains, Pops;
    RotatedElements(target, |current|);
    forall t | t in Rotated(target, |current|) ensures Some(t) in Present(current) {
      var i :| 0 <= i < |current| && current[i] == t;
      assert Present(current)[i] == Some(t);
    }
    LoadsFromStack(Present(current), Rotated(target, |current|));
    DrainsNeverLoad(|current|, |target|);
  }

  /** What the successors' layouts hold is on the stack at the end of the block. */
  lemma SuccessorLayoutOnStack(u: Unit, live: LiveInfo, b: BlockId, c: BlockId, s: Slot)
    requires Solution(u.fn.cfg, live) && b in u.fn.cfg.blocks && b in live.liveIn && LayoutAt(u, live, b)
    requires c in u.fn.cfg.blocks[b].successors && c in live.liveIn && LayoutAt(u, live, c) && s in Layout(u.alloc, c)
    ensures var insts := u.fn.cfg.blocks[b].instructions;
            s in BlockStackAt(insts, |insts|, u.alloc, Layout(u.alloc, b)) + Layout(u.alloc, b)
  {
    hide BlockStackAt, Distinct, TerminatorUses;
    assert EquationsAt(u.fn.cfg, live, b);
    var insts := u.fn.cfg.blocks[b].instructions;
    assert insts[|insts|..] == [];
    LiveIsOnStack(u, live, b, |insts|, s);
  }

  /**
   * The shuffle of a jump, and the one in front of a branch, load nothing from memory:
   * the target's layout, and a condition assigned to the stack, are on the stack.
   */
  lemma EdgeNeverLoads(u: Unit, live: LiveInfo, b: BlockId, c: BlockId)
    requires Solution(u.fn.cfg, live) && b in u.fn.cfg.blocks && b in live.liveIn && LayoutAt(u, live, b)
    requires c in u.fn.cfg.blocks[b].successors && c in live.liveIn && LayoutAt(u, live, c)
    ensures var insts := u.fn.cfg.blocks[b].instructions;
            var current := BlockStackAt(insts, |insts|, u.alloc, Layout(u.alloc, b)) + Layout(u.alloc, b);
            && NeverLoads(Plan(Present(current), Layout(u.alloc, c)))
            && forall s :: s in TerminatorUses(u.fn.cfg.blocks[b].terminator) && OnStack(u.alloc, s) ==>
                 NeverLoads(Plan(Present(current), [s] + Layout(u.alloc, c)))
  {
    hide BlockStackAt, Plan, Solution, LayoutAt, TerminatorUses, NeverLoads;
    var block := u.fn.cfg.blocks[b];
    var insts := block.instructions;
    var current := BlockStackAt(insts, |insts|, u.alloc, Layout(u.alloc, b)) + Layout(u.alloc, b);
    forall s | s in Layout(u.alloc, c) ensures s in current {
      SuccessorLayoutOnStack(u, live, b, c, s);
    }
    ShuffleNeverLoads(current, Layout(u.alloc, c));
    forall s | s in TerminatorUses(block.terminator) && OnStack(u.alloc, s)
      ensures NeverLoads(Plan(Present(current), [s] + Layout(u.alloc, c)))
    {
      SolutionKnown(u.fn.cfg, live, b);
      assert insts[|insts|..] == [];
      LiveIsOnStack(u, live, b, |insts|, s);
      ShuffleNeverLoads(current, [s] + Layout(u.alloc, c));
    }
  }
}
