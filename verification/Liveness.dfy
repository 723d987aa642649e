/**
 * The liveness analysis (codegen/src/analysis/liveness.rs): a worklist over the
 * blocks, started in any order. Its result is the least one: a slot is live
 * into a block exactly when some path from there reads it before writing it.
 */
module Liveness {
  import opened Sequences
  import opened Lowered
  import opened LiveSets
  import opened Graphs

  // ---------------------------------------------------------------------------
  // What liveness means
  // ---------------------------------------------------------------------------

  function GraphOf(cfg: Cfg): Graph {
    Graph(map b | b in cfg.blocks :: cfg.blocks[b].successors,
          map b | b in cfg.blocks :: cfg.blocks[b].predecessors,
          cfg.entry)
  }

  lemma GraphLinked(cfg: Cfg)
    requires WellFormed(cfg)
    ensures WellLinked(GraphOf(cfg))
  {
    var g := GraphOf(cfg);
    forall a, b | Edge(g, a, b) ensures b in g.succ && a in g.pred[b] {
      assert b in cfg.blocks[a].successors;
    }
    forall a, b | b in g.pred && a in g.pred[b] ensures Edge(g, a, b) {
      assert a in cfg.blocks[b].predecessors;
    }
  }

  predicate WritesBefore(insts: seq<Instruction>, i: nat, s: Slot)
    requires i <= |insts|
  {
    exists j :: 0 <= j < i && s in Defs(insts[j])
  }

  /** Instruction `i`, or the terminator when i is the number of instructions, reads `s`. */
  predicate ReadsAt(b: Block, i: nat, s: Slot)
    requires i <= |b.instructions|
  {
    if i < |b.instructions| then s in Uses(b.instructions[i]) else s in TerminatorUses(b.terminator)
  }

  /** The block reads `s` at a point before which it has not written it. */
  ghost predicate ReadsFirst(b: Block, s: Slot) {
    exists i :: 0 <= i <= |b.instructions| && ReadsAt(b, i, s) && !WritesBefore(b.instructions, i, s)
  }

  /** Control can run through the blocks of `p`, and the first access to `s` is a read in the last one. */
  ghost predicate ReadOnPath(cfg: Cfg, p: seq<BlockId>, s: Slot) {
    && IsPath(GraphOf(cfg), p)
    && ReadsFirst(cfg.blocks[p[|p| - 1]], s)
    && forall i :: 0 <= i < |p| - 1 ==> !WritesBefore(cfg.blocks[p[i]].instructions, |cfg.blocks[p[i]].instructions|, s)
  }

  ghost predicate LiveInto(cfg: Cfg, b: BlockId, s: Slot) {
    exists p :: ReadOnPath(cfg, p, s) && p[0] == b
  }

  lemma {:induction false} GenFromMeaning(insts: seq<Instruction>, t: Terminator, killed: set<Slot>, s: Slot)
    ensures s in GenFrom(insts, t, killed) <==>
            s !in killed && ReadsFirst(Block(insts, t, [], []), s)
    decreases |insts|
  {
    var b, rest := Block(insts, t, [], []), Block(insts[if insts == [] then 0 else 1..], t, [], []);
    if insts == [] {
      if s in TerminatorUses(t) {
        assert ReadsAt(b, 0, s) && !WritesBefore(insts, 0, s);
      }
    } else {
      GenFromMeaning(insts[1..], t, killed + Defs(insts[0]), s);
      if s in Uses(insts[0]) {
        assert ReadsAt(b, 0, s) && !WritesBefore(insts, 0, s);
      } else {
        LaterRead(insts, t, s);
      }
    }
  }

  /** Past an instruction that does not read `s`, the first access is a read exactly if it is not written here. */
  lemma LaterRead(insts: seq<Instruction>, t: Terminator, s: Slot)
    requires insts != [] && s !in Uses(insts[0])
    ensures ReadsFirst(Block(insts, t, [], []), s) <==>
            s !in Defs(insts[0]) && ReadsFirst(Block(insts[1..], t, [], []), s)
  {
    var b, rest := Block(insts, t, [], []), Block(insts[1..], t, [], []);
    if ReadsFirst(b, s) {
      var i :| 0 <= i <= |insts| && ReadsAt(b, i, s) && !WritesBefore(insts, i, s);
      assert i > 0;
      assert s !in Defs(insts[0]);
      assert ReadsAt(rest, i - 1, s);
      assert forall j :: 0 <= j < i - 1 ==> insts[1..][j] == insts[j + 1];
      assert !WritesBefore(insts[1..], i - 1, s);
    }
    if s !in Defs(insts[0]) && ReadsFirst(rest, s) {
      var i :| 0 <= i <= |insts[1..]| && ReadsAt(rest, i, s) && !WritesBefore(insts[1..], i, s);
      assert ReadsAt(b, i + 1, s);
      assert forall j :: 0 < j < i + 1 ==> insts[j] == insts[1..][j - 1];
      assert !WritesBefore(insts, i + 1, s);
    }
  }

  lemma {:induction false} KillMeaning(insts: seq<Instruction>, s: Slot)
    ensures s in KillOf(insts) <==> WritesBefore(insts, |insts|, s)
    decreases |insts|
  {
    if insts != [] {
      KillMeaning(insts[1..], s);
      assert forall j :: 0 <= j < |insts[1..]| ==> insts[1..][j] == insts[j + 1];
      if WritesBefore(insts, |insts|, s) && s !in Defs(insts[0]) {
        var j :| 0 <= j < |insts| && s in Defs(insts[j]);
        assert s in Defs(insts[1..][j - 1]);
      }
    }
  }

  /** GEN and KILL mean what their names say. */
  lemma GenKillMeaning(b: Block, s: Slot)
    ensures s in Gen(b) <==> ReadsFirst(b, s)
    ensures s in Kill(b) <==> WritesBefore(b.instructions, |b.instructions|, s)
  {
    GenFromMeaning(b.instructions, b.terminator, {}, s);
    KillMeaning(b.instructions, s);
    var c := Block(b.instructions, b.terminator, [], []);
    assert forall i :: 0 <= i <= |b.instructions| ==> ReadsAt(b, i, s) == ReadsAt(c, i, s);
  }

  // ---------------------------------------------------------------------------
  // Any solution is complete
  // ---------------------------------------------------------------------------

  lemma {:induction false} SolutionHasPath(cfg: Cfg, live: LiveInfo, p: seq<BlockId>, s: Slot)
    requires Solution(cfg, live) && ReadOnPath(cfg, p, s)
    ensures s in live.liveIn[p[0]]
    decreases |p|
  {
    hide Gen, Kill, ReadsFirst;
    assert EquationsAt(cfg, live, p[0]);
    GenKillMeaning(cfg.blocks[p[0]], s);
    if |p| > 1 {
      assert ReadOnPath(cfg, p[1..], s);
      SolutionHasPath(cfg, live, p[1..], s);
      assert Edge(GraphOf(cfg), p[0], p[1]);
      assert s in live.liveOut[p[0]];
    }
  }

  // ---------------------------------------------------------------------------
  // The algorithm
  // ---------------------------------------------------------------------------

  lemma GenKillStep(insts: seq<Instruction>, t: Terminator, kill: set<Slot>)
    requires insts != []
    ensures GenFrom(insts, t, kill) == (SlotsOf(Operands(insts[0])) - kill)
        + GenFrom(insts[1..], t, kill + Defs(insts[0]))
    ensures KillOf(insts) == Defs(insts[0]) + KillOf(insts[1..])
  {
  }

  lemma GenKillEnd(b: Block, kill: set<Slot>)
    ensures GenFrom(b.instructions[|b.instructions|..], b.terminator, kill)
         == SlotsOf(TerminatorOperands(b.terminator)) - kill
    ensures KillOf(b.instructions[|b.instructions|..]) == {}
  {
  }

  lemma DefsIs(inst: Instruction)
    ensures Defs(inst) == match Destination(inst) { case Some(d) => {d} case None => {} }
  {
  }

  method ComputeGenKill(b: Block) returns (gen: set<Slot>, kill: set<Slot>)
    ensures gen == Gen(b) && kill == Kill(b)
  {
    hide GenFrom, KillOf, Defs, Uses, Destination, Operands, SlotsOf;
    gen, kill := {}, {};
    var i := 0;
    while i < |b.instructions|
      invariant i <= |b.instructions|
      invariant gen + GenFrom(b.instructions[i..], b.terminator, kill) == Gen(b)
      invariant kill + KillOf(b.instructions[i..]) == Kill(b)
    {
      var inst := b.instructions[i];
      GenKillStep(b.instructions[i..], b.terminator, kill);
      assert b.instructions[i..][1..] == b.instructions[i + 1..];
      DefsIs(inst);
      gen := AddReads(Operands(inst), gen, kill);
      ghost var before := kill;
      match Destination(inst) {
        case Some(d) => kill := kill + {d};
        case None =>
      }
      assert kill == before + Defs(inst);
      i := i + 1;
    }
    GenKillEnd(b, kill);
    gen := AddReads(TerminatorOperands(b.terminator), gen, kill);
  }

  /** Add the slots read by some operands, unless they are killed already. */
  method AddReads(operands: seq<Operand>, gen: set<Slot>, kill: set<Slot>) returns (r: set<Slot>)
    ensures r == gen + (SlotsOf(operands) - kill)
  {
    r := gen;
    var j := 0;
    while j < |operands|
      invariant j <= |operands|
      invariant r == gen + (SlotsOf(operands[..j]) - kill)
    {
      assert operands[..j + 1] == operands[..j] + [operands[j]];
      assert SlotsOf(operands[..j + 1]) == SlotsOf(operands[..j]) + SlotsOf([operands[j]]);
      match operands[j] {
        case Location(s) =>
          assert SlotsOf([operands[j]]) == {s} by {
            assert operands[j] in [operands[j]];
          }
          if s !in kill {
            r := r + {s};
          }
        case Literal(_) =>
      }
      j := j + 1;
    }
    assert operands[..j] == operands;
  }

  method LiveOutOf(cfg: Cfg, liveIn: map<BlockId, set<Slot>>, b: BlockId) returns (out: set<Slot>)
    requires b in cfg.blocks && forall s :: s in cfg.blocks[b].successors ==> s in liveIn
    ensures out == LiveOfSuccessors(cfg, liveIn, b)
  {
    out := {};
    var succs := cfg.blocks[b].successors;
    var j := 0;
    while j < |succs|
      invariant j <= |succs|
      invariant out == set s, x | s in succs[..j] && s in liveIn && x in liveIn[s] :: x
    {
      assert succs[..j + 1] == succs[..j] + [succs[j]];
      out := out + liveIn[succs[j]];
      j := j + 1;
    }
    assert succs[..j] == succs;
  }

  // ---------------------------------------------------------------------------
  // The invariants of the worklist
  // ---------------------------------------------------------------------------

  /** All slots read anywhere: the analysis never leaves this set. */
  ghost function Universe(cfg: Cfg): set<Slot> {
    set b, s | b in cfg.blocks && s in Gen(cfg.blocks[b]) :: s
  }

  /** Nothing is live without a path that reads it, and every set may only grow from here. */
  ghost predicate Sound(cfg: Cfg, live: LiveInfo) {
    && live.liveIn.Keys == cfg.blocks.Keys && live.liveOut.Keys == cfg.blocks.Keys
    && (forall b :: b in cfg.blocks ==> SoundAt(cfg, live, b))
  }

  ghost predicate SoundAt(cfg: Cfg, live: LiveInfo, b: BlockId)
    requires b in cfg.blocks && b in live.liveIn && b in live.liveOut
  {
    && (forall s :: s in live.liveIn[b] ==> LiveInto(cfg, b, s))
    && live.liveIn[b] <= Universe(cfg) && live.liveOut[b] <= Universe(cfg)
    && live.liveOut[b] <= LiveOfSuccessors(cfg, live.liveIn, b)
    && live.liveIn[b] <= Gen(cfg.blocks[b]) + (live.liveOut[b] - Kill(cfg.blocks[b]))
  }

  function Updated(live: LiveInfo, b: BlockId, newIn: set<Slot>, newOut: set<Slot>): LiveInfo {
    LiveInfo(live.liveIn[b := newIn], live.liveOut[b := newOut])
  }

  /** A block's successors pass their reads on. */
  lemma LiveThrough(cfg: Cfg, b: BlockId, c: BlockId, s: Slot)
    requires b in cfg.blocks && c in cfg.blocks[b].successors && LiveInto(cfg, c, s)
    requires s !in Kill(cfg.blocks[b])
    ensures LiveInto(cfg, b, s)
  {
    hide Kill, ReadsFirst, WritesBefore;
    var p :| ReadOnPath(cfg, p, s) && p[0] == c;
    assert Edge(GraphOf(cfg), b, c);
    GenKillMeaning(cfg.blocks[b], s);
    assert ReadOnPath(cfg, [b] + p, s);
  }

  lemma LiveHere(cfg: Cfg, b: BlockId, s: Slot)
    requires b in cfg.blocks && s in Gen(cfg.blocks[b])
    ensures LiveInto(cfg, b, s)
  {
    hide Gen, ReadsFirst;
    GenKillMeaning(cfg.blocks[b], s);
    assert ReadOnPath(cfg, [b], s);
  }

  /** One round keeps the analysis sound, and it never shrinks a set. */
  lemma RoundSound(cfg: Cfg, live: LiveInfo, b: BlockId, newIn: set<Slot>, newOut: set<Slot>)
    requires WellFormed(cfg) && Sound(cfg, live) && b in cfg.blocks
    requires newOut == LiveOfSuccessors(cfg, live.liveIn, b)
    requires newIn == Gen(cfg.blocks[b]) + (newOut - Kill(cfg.blocks[b]))
    ensures live.liveIn[b] <= newIn && live.liveOut[b] <= newOut
    ensures newIn <= Universe(cfg) && newOut <= Universe(cfg)
    ensures Sound(cfg, Updated(live, b, newIn, newOut))
  {
    hide Gen, Kill, LiveInto, Universe, LiveOfSuccessors, WellFormed;
    assert SoundAt(cfg, live, b);
    InUniverse(cfg, b);
    OutSound(cfg, live, b);
    var live' := Updated(live, b, newIn, newOut);
    forall s | s in newIn ensures LiveInto(cfg, b, s) {
      if s in Gen(cfg.blocks[b]) {
        LiveHere(cfg, b, s);
      } else {
        var c := OutFrom(cfg, live, b, s);
        LiveThrough(cfg, b, c, s);
      }
    }
    forall c | c in cfg.blocks ensures SoundAt(cfg, live', c) {
      assert SoundAt(cfg, live, c);
      OutGrows(cfg, live.liveIn, live'.liveIn, c);
      OutGrows(cfg, live.liveIn, live'.liveIn, b);
    }
  }

  /** What is live out of a block is live into some successor. */
  lemma OutFrom(cfg: Cfg, live: LiveInfo, b: BlockId, s: Slot) returns (c: BlockId)
    requires WellFormed(cfg) && Sound(cfg, live) && b in cfg.blocks && s in LiveOfSuccessors(cfg, live.liveIn, b)
    ensures c in cfg.blocks[b].successors && LiveInto(cfg, c, s) && s in Universe(cfg)
  {
    hide LiveInto, Universe, Gen, Kill;
    c :| c in cfg.blocks[b].successors && c in live.liveIn && s in live.liveIn[c];
    assert SoundAt(cfg, live, c);
  }

  lemma OutSound(cfg: Cfg, live: LiveInfo, b: BlockId)
    requires WellFormed(cfg) && Sound(cfg, live) && b in cfg.blocks
    ensures LiveOfSuccessors(cfg, live.liveIn, b) <= Universe(cfg)
  {
    hide LiveInto, Universe, Gen, Kill, LiveOfSuccessors, Sound, WellFormed;
    forall s | s in LiveOfSuccessors(cfg, live.liveIn, b) ensures s in Universe(cfg) {
      var c := OutFrom(cfg, live, b, s);
    }
  }

  lemma OutGrows(cfg: Cfg, old_: map<BlockId, set<Slot>>, new_: map<BlockId, set<Slot>>, b: BlockId)
    requires b in cfg.blocks && forall c :: c in old_ ==> c in new_ && old_[c] <= new_[c]
    ensures LiveOfSuccessors(cfg, old_, b) <= LiveOfSuccessors(cfg, new_, b)
  {
  }

  lemma InUniverse(cfg: Cfg, b: BlockId)
    requires b in cfg.blocks
    ensures Gen(cfg.blocks[b]) <= Universe(cfg)
  {
    hide Gen;
  }

  ghost predicate Settled(cfg: Cfg, live: LiveInfo, pending: set<BlockId>)
    requires live.liveIn.Keys == cfg.blocks.Keys && live.liveOut.Keys == cfg.blocks.Keys
  {
    forall b {:trigger EquationsAt(cfg, live, b)} :: b in cfg.blocks && b !in pending ==> EquationsAt(cfg, live, b)
  }

  lemma OutUnchanged(cfg: Cfg, sets: map<BlockId, set<Slot>>, b: BlockId, new_: set<Slot>, c: BlockId)
    requires c in cfg.blocks && b in sets && b !in cfg.blocks[c].successors
    ensures LiveOfSuccessors(cfg, sets[b := new_], c) == LiveOfSuccessors(cfg, sets, c)
  {
    forall x | x in LiveOfSuccessors(cfg, sets[b := new_], c) ensures x in LiveOfSuccessors(cfg, sets, c) {
      var s :| s in cfg.blocks[c].successors && s in sets[b := new_] && x in sets[b := new_][s];
      assert s in sets && x in sets[s];
    }
    forall x | x in LiveOfSuccessors(cfg, sets, c) ensures x in LiveOfSuccessors(cfg, sets[b := new_], c) {
      var s :| s in cfg.blocks[c].successors && s in sets && x in sets[s];
      assert s in sets[b := new_] && x in sets[b := new_][s];
    }
  }

  /** After a round the only blocks whose equations may fail are the pending ones and the predecessors. */
  lemma RoundSettles(cfg: Cfg, live: LiveInfo, b: BlockId, newIn: set<Slot>, newOut: set<Slot>, pending: set<BlockId>)
    requires WellFormed(cfg) && b in cfg.blocks
    requires live.liveIn.Keys == cfg.blocks.Keys && live.liveOut.Keys == cfg.blocks.Keys
    requires Settled(cfg, live, pending + {b})
    requires newOut == LiveOfSuccessors(cfg, live.liveIn, b)
    requires newIn == Gen(cfg.blocks[b]) + (newOut - Kill(cfg.blocks[b]))
    ensures Settled(cfg, Updated(live, b, newIn, newOut), pending + ToSet(cfg.blocks[b].predecessors))
    ensures newIn == live.liveIn[b] && newOut == live.liveOut[b] ==> Settled(cfg, live, pending)
  {
    hide Gen, Kill;
    var live' := Updated(live, b, newIn, newOut);
    var preds := cfg.blocks[b].predecessors;
    forall c | c in cfg.blocks && c !in pending + ToSet(preds) ensures EquationsAt(cfg, live', c) {
      assert b !in cfg.blocks[c].successors;
      OutUnchanged(cfg, live.liveIn, b, newIn, c);
      if c != b {
        assert EquationsAt(cfg, live, c);
      }
    }
    if newIn == live.liveIn[b] && newOut == live.liveOut[b] {
      assert EquationsAt(cfg, live, b);
    }
  }

  /** Pairs of a block and a slot that a set map does not have yet. */
  ghost function Missing(cfg: Cfg, sets: map<BlockId, set<Slot>>): set<(BlockId, Slot)> {
    set b, s | b in cfg.blocks && s in Universe(cfg) && !(b in sets && s in sets[b]) :: (b, s)
  }

  lemma MissingShrinks(cfg: Cfg, sets: map<BlockId, set<Slot>>, b: BlockId, new_: set<Slot>)
    requires b in cfg.blocks && b in sets && sets[b] <= new_ <= Universe(cfg)
    ensures Missing(cfg, sets[b := new_]) <= Missing(cfg, sets)
    ensures new_ != sets[b] ==> Missing(cfg, sets[b := new_]) < Missing(cfg, sets)
    ensures new_ == sets[b] ==> Missing(cfg, sets[b := new_]) == Missing(cfg, sets)
  {
    hide Universe;
    if new_ != sets[b] {
      var s :| s in new_ && s !in sets[b];
      assert (b, s) in Missing(cfg, sets) && (b, s) !in Missing(cfg, sets[b := new_]);
    } else {
      assert sets[b := new_] == sets;
    }
  }

  lemma StartSound(cfg: Cfg, live: LiveInfo)
    requires live.liveIn.Keys == cfg.blocks.Keys && live.liveOut.Keys == cfg.blocks.Keys
    requires forall b :: b in cfg.blocks ==> live.liveIn[b] == {} && live.liveOut[b] == {}
    ensures Sound(cfg, live)
  {
  }

  /** Put the predecessors that are not waiting yet at the end of the worklist. */
  method Enqueue(preds: seq<BlockId>, worklist: seq<BlockId>, waiting: set<BlockId>)
    returns (worklist': seq<BlockId>, waiting': set<BlockId>)
    requires ToSet(worklist) == waiting && Distinct(worklist)
    ensures ToSet(worklist') == waiting' == waiting + ToSet(preds) && Distinct(worklist')
  {
    worklist', waiting' := worklist, waiting;
    var j := 0;
    while j < |preds|
      invariant j <= |preds|
      invariant ToSet(worklist') == waiting' == waiting + ToSet(preds[..j]) && Distinct(worklist')
    {
      assert preds[..j + 1] == preds[..j] + [preds[j]];
      if preds[j] !in waiting' {
        worklist', waiting' := worklist' + [preds[j]], waiting' + {preds[j]};
      }
      j := j + 1;
    }
    assert preds[..j] == preds;
  }

  /**
   * The worklist ends, both equations hold at every block, and the sets are the
   * least ones: a slot is live into a block exactly when a path reads it first.
   */
  method AnalyzeLiveness(cfg: Cfg) returns (live: LiveInfo)
    requires WellFormed(cfg)
    ensures Solution(cfg, live)
    ensures forall b, s :: b in cfg.blocks ==> (s in live.liveIn[b] <==> LiveInto(cfg, b, s))
  {
    hide Universe, Sound, LiveInto, Gen, Kill, Missing, Settled, LiveOfSuccessors, EquationsAt, WellFormed, Solution,
        ToSet, Distinct;
    var sets := AllGenKill(cfg);
    live := LiveInfo(map b | b in cfg.blocks :: {}, map b | b in cfg.blocks :: {});
    StartSound(cfg, live);
    var worklist := AnyOrder(cfg.blocks.Keys);
    var waiting := ToSet(worklist);
    AllPending(cfg, live);
    while worklist != []
      invariant live.liveIn.Keys == cfg.blocks.Keys && live.liveOut.Keys == cfg.blocks.Keys
      invariant waiting == ToSet(worklist) && waiting <= cfg.blocks.Keys && Distinct(worklist)
      invariant Sound(cfg, live) && Settled(cfg, live, waiting)
      decreases Missing(cfg, live.liveIn), Missing(cfg, live.liveOut), |worklist|
    {
      var b := worklist[0];
      PopFront(worklist);
      EdgesInside(cfg, b);
      worklist, waiting := worklist[1..], waiting - {b};
      var newOut := LiveOutOf(cfg, live.liveIn, b);
      var (gen, kill) := sets[b];
      var newIn := gen + (newOut - kill);
      RoundSound(cfg, live, b, newIn, newOut);
      RoundSettles(cfg, live, b, newIn, newOut, waiting);
      if newIn != live.liveIn[b] || newOut != live.liveOut[b] {
        MissingShrinks(cfg, live.liveIn, b, newIn);
        MissingShrinks(cfg, live.liveOut, b, newOut);
        live := LiveInfo(live.liveIn[b := newIn], live.liveOut[b := newOut]);
        worklist, waiting := Enqueue(cfg.blocks[b].predecessors, worklist, waiting);
      }
    }
    NoElements(worklist);
    LeastSolution(cfg, live);
  }

  lemma EdgesInside(cfg: Cfg, b: BlockId)
    requires WellFormed(cfg) && b in cfg.blocks
    ensures forall s :: s in cfg.blocks[b].successors ==> s in cfg.blocks
    ensures ToSet(cfg.blocks[b].predecessors) <= cfg.blocks.Keys
  {
  }

  lemma AllPending(cfg: Cfg, live: LiveInfo)
    requires live.liveIn.Keys == cfg.blocks.Keys && live.liveOut.Keys == cfg.blocks.Keys
    ensures Settled(cfg, live, cfg.blocks.Keys)
  {
  }

  /** A sound solution is the least one. */
  lemma LeastSolution(cfg: Cfg, live: LiveInfo)
    requires Sound(cfg, live) && Settled(cfg, live, {})
    ensures Solution(cfg, live)
    ensures forall b, s :: b in cfg.blocks ==> (s in live.liveIn[b] <==> LiveInto(cfg, b, s))
  {
    hide Gen, Kill, EquationsAt, Universe;
    forall b, s | b in cfg.blocks ensures s in live.liveIn[b] <==> LiveInto(cfg, b, s) {
      assert SoundAt(cfg, live, b);
      if LiveInto(cfg, b, s) {
        var p :| ReadOnPath(cfg, p, s) && p[0] == b;
        SolutionHasPath(cfg, live, p, s);
      }
    }
  }

  method AllGenKill(cfg: Cfg) returns (sets: map<BlockId, (set<Slot>, set<Slot>)>)
    ensures sets.Keys == cfg.blocks.Keys
    ensures forall b :: b in sets ==> sets[b] == (Gen(cfg.blocks[b]), Kill(cfg.blocks[b]))
  {
    hide Gen, Kill;
    sets := map[];
    var ids := AnyOrder(cfg.blocks.Keys);
    for i := 0 to |ids|
      invariant sets.Keys == ToSet(ids[..i])
      invariant forall b :: b in sets ==> b in cfg.blocks && sets[b] == (Gen(cfg.blocks[b]), Kill(cfg.blocks[b]))
    {
      assert ids[i] in ToSet(ids);
      assert ids[..i + 1] == ids[..i] + [ids[i]];
      var gen, kill := ComputeGenKill(cfg.blocks[ids[i]]);
      sets := sets[ids[i] := (gen, kill)];
    }
    assert ids[..|ids|] == ids;
  }
}
