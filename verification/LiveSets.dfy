/** Which slots are live where: the equations a liveness analysis has to solve. */
module LiveSets {
  import opened Lowered

  /** Slots live before some instructions of a block, given those live at its exit. */
  function LiveBefore(insts: seq<Instruction>, t: Terminator, out: set<Slot>): set<Slot>
    decreases |insts|
  {
    if insts == [] then TerminatorUses(t) + out
    else (LiveBefore(insts[1..], t, out) - Defs(insts[0])) + Uses(insts[0])
  }

  /** Slots some instructions and the terminator read before they write them, outside `killed`. */
  function GenFrom(insts: seq<Instruction>, t: Terminator, killed: set<Slot>): set<Slot>
    decreases |insts|
  {
    if insts == [] then TerminatorUses(t) - killed
    else (Uses(insts[0]) - killed) + GenFrom(insts[1..], t, killed + Defs(insts[0]))
  }

  function KillOf(insts: seq<Instruction>): set<Slot> {
    if insts == [] then {} else Defs(insts[0]) + KillOf(insts[1..])
  }

  function Gen(b: Block): set<Slot> {
    GenFrom(b.instructions, b.terminator, {})
  }

  function Kill(b: Block): set<Slot> {
    KillOf(b.instructions)
  }

  datatype LiveInfo = LiveInfo(liveIn: map<BlockId, set<Slot>>, liveOut: map<BlockId, set<Slot>>)

  /** The live sets of a block's successors, together. */
  ghost function LiveOfSuccessors(cfg: Cfg, liveIn: map<BlockId, set<Slot>>, b: BlockId): set<Slot>
    requires b in cfg.blocks
  {
    set s, x | s in cfg.blocks[b].successors && s in liveIn && x in liveIn[s] :: x
  }

  /** The two dataflow equations of a block. */
  ghost predicate EquationsAt(cfg: Cfg, live: LiveInfo, b: BlockId)
    requires b in cfg.blocks && b in live.liveIn && b in live.liveOut
  {
    && live.liveOut[b] == LiveOfSuccessors(cfg, live.liveIn, b)
    && live.liveIn[b] == Gen(cfg.blocks[b]) + (live.liveOut[b] - Kill(cfg.blocks[b]))
  }

  /** Both dataflow equations hold at every block. */
  ghost predicate Solution(cfg: Cfg, live: LiveInfo) {
    && live.liveIn.Keys == cfg.blocks.Keys && live.liveOut.Keys == cfg.blocks.Keys
    && forall b {:trigger EquationsAt(cfg, live, b)} :: b in cfg.blocks ==> EquationsAt(cfg, live, b)
  }

  lemma {:induction false} GenKillFrom(insts: seq<Instruction>, t: Terminator, out: set<Slot>, killed: set<Slot>)
    ensures GenFrom(insts, t, killed) + (out - KillOf(insts) - killed) == LiveBefore(insts, t, out) - killed
    decreases |insts|
  {
    if insts != [] {
      var d := Defs(insts[0]);
      GenKillFrom(insts[1..], t, out, killed + d);
      var after := LiveBefore(insts[1..], t, out);
      assert out - KillOf(insts) - killed == out - KillOf(insts[1..]) - (killed + d);
      assert (after - d + Uses(insts[0])) - killed == (Uses(insts[0]) - killed) + (after - (killed + d));
    }
  }

  /** The transfer function of a block, instruction by instruction or by GEN and KILL. */
  lemma BlockTransfer(b: Block, out: set<Slot>)
    ensures Gen(b) + (out - Kill(b)) == LiveBefore(b.instructions, b.terminator, out)
  {
    GenKillFrom(b.instructions, b.terminator, out, {});
    assert LiveBefore(b.instructions, b.terminator, out) - {} == LiveBefore(b.instructions, b.terminator, out);
  }
}
