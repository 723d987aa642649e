/**
 * Dead-instruction elimination (codegen/src/opt): rounds of removing pure instructions
 * whose destination is read nowhere, until a round removes nothing. Whole programs
 * behave as before: same storage, same calls, same branches, same results.
 */
module DeadCode {
  import opened Sequences
  import opened Lowered
  import opened Graphs

  // ---------------------------------------------------------------------------
  // Used slots
  // ---------------------------------------------------------------------------

  function UsesOf(insts: seq<Instruction>): set<Slot> {
    set i, s | 0 <= i < |insts| && s in Uses(insts[i]) :: s
  }

  function BlockUses(b: Block): set<Slot> {
    UsesOf(b.instructions) + TerminatorUses(b.terminator)
  }

  /** Every slot read anywhere in the function. */
  function UsedSlots(cfg: Cfg): set<Slot> {
    set b, s | b in cfg.blocks && s in BlockUses(cfg.blocks[b]) :: s
  }

  method AddOperands(operands: seq<Operand>, used: set<Slot>) returns (r: set<Slot>)
    ensures r == used + SlotsOf(operands)
  {
    r := used;
    for j := 0 to |operands|
      invariant r == used + SlotsOf(operands[..j])
    {
      assert operands[..j + 1] == operands[..j] + [operands[j]];
      assert SlotsOf(operands[..j + 1]) == SlotsOf(operands[..j])
          + (if operands[j].Location? then {operands[j].slot} else {});
      if operands[j].Location? {
        r := r + {operands[j].slot};
      }
    }
    assert operands[..|operands|] == operands;
  }

  method AddBlock(b: Block, used: set<Slot>) returns (r: set<Slot>)
    ensures r == used + BlockUses(b)
  {
    hide SlotsOf, Operands;
    r := used;
    var insts := b.instructions;
    for i := 0 to |insts|
      invariant r == used + UsesOf(insts[..i])
    {
      UsesNext(insts, i);
      r := AddOperands(Operands(insts[i]), r);
    }
    assert insts[..|insts|] == insts;
    r := AddOperands(TerminatorOperands(b.terminator), r);
  }

  lemma UsesNext(insts: seq<Instruction>, i: nat)
    requires i < |insts|
    ensures UsesOf(insts[..i + 1]) == UsesOf(insts[..i]) + Uses(insts[i])
    ensures Uses(insts[i]) == SlotsOf(Operands(insts[i]))
  {
    hide SlotsOf, Operands;
    var longer, shorter := insts[..i + 1], insts[..i];
    forall s | s in Uses(insts[i]) ensures s in UsesOf(longer) {
      assert s in Uses(longer[i]);
    }
    forall s | s in UsesOf(shorter) ensures s in UsesOf(longer) {
      var j :| 0 <= j < |shorter| && s in Uses(shorter[j]);
      assert s in Uses(longer[j]);
    }
    forall s | s in UsesOf(longer) ensures s in UsesOf(shorter) + Uses(insts[i]) {
      var j :| 0 <= j < |longer| && s in Uses(longer[j]);
      if j < i {
        assert s in Uses(shorter[j]);
      }
    }
  }

  method CollectUsedSlots(cfg: Cfg) returns (used: set<Slot>)
    ensures used == UsedSlots(cfg)
  {
    hide BlockUses, Distinct;
    used := {};
    var ids := AnyOrder(cfg.blocks.Keys);
    for i := 0 to |ids|
      invariant used == set b, s | b in ToSet(ids[..i]) && b in cfg.blocks && s in BlockUses(cfg.blocks[b]) :: s
    {
      PrefixGrows(ids, i);
      used := AddBlock(cfg.blocks[ids[i]], used);
    }
    assert ids[..|ids|] == ids;
  }

  // ---------------------------------------------------------------------------
  // One round
  // ---------------------------------------------------------------------------

  /** What a round removes: no side effect, and nobody reads the destination. */
  predicate Dead(inst: Instruction, used: set<Slot>) {
    !HasSideEffects(inst) && Destination(inst).Some? && Destination(inst).value !in used
  }

  /** Why an instruction is there: it stores, it calls, or something reads what it computes. */
  predicate Needed(inst: Instruction, used: set<Slot>) {
    inst.StorageStore? || inst.Call? || (Destination(inst).Some? && Destination(inst).value in used)
  }

  function Retained(insts: seq<Instruction>, used: set<Slot>): (r: seq<Instruction>)
    ensures |r| <= |insts|
    ensures |r| == |insts| ==> r == insts
    ensures forall i :: 0 <= i < |r| ==> !Dead(r[i], used) && r[i] in insts
  {
    if insts == [] then []
    else
      var init := Retained(insts[..|insts| - 1], used);
      if Dead(insts[|insts| - 1], used) then init else init + [insts[|insts| - 1]]
  }

  /** Exactly what is needed is retained. */
  lemma {:induction false} RetainedIsNeeded(insts: seq<Instruction>, used: set<Slot>)
    ensures forall inst :: inst in Retained(insts, used) <==> inst in insts && Needed(inst, used)
  {
    if insts != [] {
      var n := |insts| - 1;
      RetainedIsNeeded(insts[..n], used);
      assert insts == insts[..n] + [insts[n]];
    }
  }

  /** Of every block, the instructions that are needed are left and no others. */
  ghost predicate KeepsNeeded(before: Cfg, after: Cfg) {
    && after.blocks.Keys == before.blocks.Keys
    && forall b, inst :: b in before.blocks ==>
         (inst in after.blocks[b].instructions <==>
          inst in before.blocks[b].instructions && Needed(inst, UsedSlots(before)))
  }

  lemma PrunedKeepsNeeded(cfg: Cfg)
    ensures KeepsNeeded(cfg, Pruned(cfg, UsedSlots(cfg)))
  {
    hide UsedSlots, Needed, Retained;
    var used := UsedSlots(cfg);
    forall b | b in cfg.blocks
      ensures forall inst :: inst in Retained(cfg.blocks[b].instructions, used) <==>
                inst in cfg.blocks[b].instructions && Needed(inst, used)
    {
      RetainedIsNeeded(cfg.blocks[b].instructions, used);
    }
  }

  function PrunedBlock(b: Block, used: set<Slot>): Block {
    b.(instructions := Retained(b.instructions, used))
  }

  function Pruned(cfg: Cfg, used: set<Slot>): Cfg {
    cfg.(blocks := map b | b in cfg.blocks :: PrunedBlock(cfg.blocks[b], used))
  }

  /** Where the instructions of a function are: the measure that every effective round lowers. */
  ghost function Positions(cfg: Cfg): set<(BlockId, nat)> {
    set b, i: nat | b in cfg.blocks && i < |cfg.blocks[b].instructions| :: (b, i)
  }

  lemma RoundShrinks(cfg: Cfg, used: set<Slot>)
    requires Pruned(cfg, used) != cfg
    ensures Positions(Pruned(cfg, used)) < Positions(cfg)
  {
    hide Retained;
    var after := Pruned(cfg, used);
    if forall b :: b in cfg.blocks ==> after.blocks[b] == cfg.blocks[b] {
      SameBlocks(cfg, after);
      assert false;
    }
    var b :| b in cfg.blocks && after.blocks[b] != cfg.blocks[b];
    var n := |after.blocks[b].instructions|;
    assert (b, n) in Positions(cfg) && (b, n) !in Positions(after);
  }

  lemma SameBlocks(a: Cfg, b: Cfg)
    requires a.entry == b.entry && a.blocks.Keys == b.blocks.Keys && forall x :: x in a.blocks ==>
        b.blocks[x] == a.blocks[x]
    ensures a == b
  {
  }

  method RetainLive(insts: seq<Instruction>, used: set<Slot>) returns (r: seq<Instruction>)
    ensures r == Retained(insts, used)
  {
    r := [];
    for i := 0 to |insts|
      invariant r == Retained(insts[..i], used)
    {
      assert insts[..i + 1][..i] == insts[..i];
      var keep := HasSideEffects(insts[i]) ||
        match Destination(insts[i]) { case None => true case Some(slot) => slot in used };
      if keep {
        r := r + [insts[i]];
      }
    }
    assert insts[..|insts|] == insts;
  }

  class LoweredCfg {
    var cfg: Cfg

    constructor (cfg: Cfg)
      ensures this.cfg == cfg
    {
      this.cfg := cfg;
    }

    /** `DeadInstructionElimination::run` */
    method Run() returns (changed: bool)
      modifies this
      ensures cfg == Pruned(old(cfg), UsedSlots(old(cfg)))
      ensures KeepsNeeded(old(cfg), cfg)
      ensures changed <==> cfg != old(cfg)
    {
      hide UsedSlots, Retained, Distinct, ToSet, PrunedUpTo, Pruned, KeepsNeeded;
      ghost var start := cfg;
      var used := CollectUsedSlots(cfg);
      changed := false;
      var ids := AnyOrder(cfg.blocks.Keys);
      NothingPruned(cfg, used);
      for i := 0 to |ids|
        invariant PrunedUpTo(start, cfg, ToSet(ids[..i]), used) && cfg.blocks.Keys == start.blocks.Keys
        invariant changed <==> cfg != start
      {
        PrefixGrows(ids, i);
        NotBefore(ids, i);
        StillAsIs(start, cfg, ToSet(ids[..i]), used, ids[i]);
        var block := cfg.blocks[ids[i]];
        var before := |block.instructions|;
        var kept := RetainLive(block.instructions, used);
        PruneOne(start, cfg, ToSet(ids[..i]), used, ids[i], kept);
        cfg := cfg.(blocks := cfg.blocks[ids[i] := block.(instructions := kept)]);
        if |kept| != before {
          changed := true;
        }
      }
      assert ids[..|ids|] == ids;
      PrunedAll(start, cfg, used);
      PrunedKeepsNeeded(start);
    }

    /** `run_to_fixed_point` for the one pass of the pipeline. */
    method RunToFixedPoint()
      modifies this
      ensures Reduced(old(cfg), cfg)
      ensures NothingDead(cfg)
    {
      hide UsedSlots, Pruned, Reduced, NothingDead, Positions, KeepsNeeded;
      ghost var start := cfg;
      var changed := Run();
      RoundReduces(start);
      while changed
        invariant Reduced(start, cfg)
        invariant !changed ==> cfg == Pruned(cfg, UsedSlots(cfg))
        decreases Positions(cfg), changed
      {
        ghost var before := cfg;
        changed := Run();
        RoundReduces(before);
        ReducedTwice(start, before, cfg);
        if changed {
          RoundShrinks(before, UsedSlots(before));
        }
      }
      FixedPointIsClean(cfg);
    }
  }

  /** The blocks in `done` have been pruned. */
  ghost predicate PrunedUpTo(start: Cfg, now: Cfg, done: set<BlockId>, used: set<Slot>) {
    && now == start.(blocks := now.blocks) && now.blocks.Keys == start.blocks.Keys
    && forall b :: b in start.blocks ==> now.blocks[b] == if b in done then PrunedBlock(start.blocks[b], used)
        else start.blocks[b]
  }

  lemma NothingPruned(cfg: Cfg, used: set<Slot>)
    ensures PrunedUpTo(cfg, cfg, ToSet([]), used)
  {
  }

  lemma StillAsIs(start: Cfg, now: Cfg, done: set<BlockId>, used: set<Slot>, b: BlockId)
    requires PrunedUpTo(start, now, done, used) && b in start.blocks && b !in done
    ensures b in now.blocks && now.blocks[b] == start.blocks[b]
  {
  }

  lemma PruneOne(start: Cfg, now: Cfg, done: set<BlockId>, used: set<Slot>, b: BlockId, kept: seq<Instruction>)
    requires PrunedUpTo(start, now, done, used) && b in start.blocks && b !in done && b in now.blocks
    requires kept == Retained(start.blocks[b].instructions, used)
    ensures var next := now.(blocks := now.blocks[b := now.blocks[b].(instructions := kept)]);
            && PrunedUpTo(start, next, done + {b}, used) && next.blocks.Keys == start.blocks.Keys
            && (next != start <==> now != start || |kept| != |now.blocks[b].instructions|)
  {
    hide Retained;
    var next := now.(blocks := now.blocks[b := now.blocks[b].(instructions := kept)]);
    if |kept| == |now.blocks[b].instructions| {
      SameLength(start.blocks[b].instructions, used);
      assert next.blocks == now.blocks;
    } else {
      assert next.blocks[b] != start.blocks[b];
    }
    if now != start {
      if forall c :: c in start.blocks ==> now.blocks[c] == start.blocks[c] {
        SameBlocks(now, start);
        assert false;
      }
      var c :| c in start.blocks && now.blocks[c] != start.blocks[c];
      assert c != b && next.blocks[c] == now.blocks[c];
    }
  }

  lemma SameLength(insts: seq<Instruction>, used: set<Slot>)
    ensures |Retained(insts, used)| == |insts| ==> Retained(insts, used) == insts
  {
  }

  lemma PrunedAll(start: Cfg, now: Cfg, used: set<Slot>)
    requires PrunedUpTo(start, now, start.blocks.Keys, used)
    ensures now == Pruned(start, used)
  {
    hide Retained;
    assert now.blocks == Pruned(start, used).blocks;
  }

  // ---------------------------------------------------------------------------
  // Many rounds
  // ---------------------------------------------------------------------------

  /** The second list is the first without some instructions that are dead with respect to `used`. */
  ghost predicate Dropped(a: seq<Instruction>, b: seq<Instruction>, used: set<Slot>) {
    if a == [] then b == []
    else (b != [] && a[0] == b[0] && Dropped(a[1..], b[1..], used)) || (Dead(a[0], used) && Dropped(a[1..], b, used))
  }

  lemma {:induction false} DroppedNothing(a: seq<Instruction>, used: set<Slot>)
    ensures Dropped(a, a, used)
  {
    if a != [] {
      DroppedNothing(a[1..], used);
    }
  }

  lemma {:induction false} DroppedAppend(a: seq<Instruction>, b: seq<Instruction>, x: Instruction, used: set<Slot>)
    requires Dropped(a, b, used)
    ensures Dropped(a + [x], b + [x], used)
    ensures Dead(x, used) ==> Dropped(a + [x], b, used)
    decreases |a|
  {
    hide Dead;
    if a == [] {
      assert [x][1..] == [] && a + [x] == [x] && b + [x] == [x];
      DroppedNothing([x], used);
      assert Dropped([], [], used);
    } else {
      assert (a + [x])[1..] == a[1..] + [x];
      if b != [] && a[0] == b[0] && Dropped(a[1..], b[1..], used) {
        assert (b + [x])[1..] == b[1..] + [x];
        DroppedAppend(a[1..], b[1..], x, used);
      } else {
        DroppedAppend(a[1..], b, x, used);
      }
    }
  }

  lemma {:induction false} RetainedDrops(insts: seq<Instruction>, used: set<Slot>)
    ensures Dropped(insts, Retained(insts, used), used)
  {
    hide Dead, Dropped;
    if insts == [] {
      DroppedNothing(insts, used);
    } else {
      var n := |insts| - 1;
      RetainedDrops(insts[..n], used);
      DroppedAppend(insts[..n], Retained(insts[..n], used), insts[n], used);
      assert insts == insts[..n] + [insts[n]];
    }
  }

  lemma {:induction false} DroppedFewerUsed(a: seq<Instruction>, b: seq<Instruction>, used: set<Slot>, fewer: set<Slot>)
    requires Dropped(a, b, used) && fewer <= used
    ensures Dropped(a, b, fewer)
    decreases |a|
  {
    if a != [] {
      if b != [] && a[0] == b[0] && Dropped(a[1..], b[1..], used) {
        DroppedFewerUsed(a[1..], b[1..], used, fewer);
      } else {
        DroppedFewerUsed(a[1..], b, used, fewer);
      }
    }
  }

  lemma {:induction false} DroppedTwice(a: seq<Instruction>, b: seq<Instruction>, c: seq<Instruction>, used: set<Slot>)
    requires Dropped(a, b, used) && Dropped(b, c, used)
    ensures Dropped(a, c, used)
    decreases |a|
  {
    hide Dead;
    if a != [] {
      if b != [] && a[0] == b[0] && Dropped(a[1..], b[1..], used) {
        if c != [] && b[0] == c[0] && Dropped(b[1..], c[1..], used) {
          DroppedTwice(a[1..], b[1..], c[1..], used);
        } else {
          DroppedTwice(a[1..], b[1..], c, used);
        }
      } else {
        DroppedTwice(a[1..], b, c, used);
      }
    }
  }

  ghost predicate ReducedAt(before: Block, after: Block, used: set<Slot>) {
    after == before.(instructions := after.instructions) && Dropped(before.instructions, after.instructions, used)
  }

  /** Only instructions were removed, each pure and with a destination that nothing left reads. */
  ghost predicate Reduced(before: Cfg, after: Cfg) {
    && after.entry == before.entry && after.blocks.Keys == before.blocks.Keys
    && UsedSlots(after) <= UsedSlots(before)
    && forall b :: b in before.blocks ==> ReducedAt(before.blocks[b], after.blocks[b], UsedSlots(after))
  }

  lemma UsedInBlock(cfg: Cfg, b: BlockId)
    requires b in cfg.blocks
    ensures BlockUses(cfg.blocks[b]) <= UsedSlots(cfg)
  {
    hide BlockUses;
  }

  lemma UsesShrink(a: seq<Instruction>, b: seq<Instruction>)
    requires forall i :: 0 <= i < |b| ==> b[i] in a
    ensures UsesOf(b) <= UsesOf(a)
  {
    hide Uses;
    forall s | s in UsesOf(b) ensures s in UsesOf(a) {
      var i :| 0 <= i < |b| && s in Uses(b[i]);
      var j :| 0 <= j < |a| && a[j] == b[i];
      assert s in Uses(a[j]);
    }
  }

  /** One round reduces. */
  lemma RoundReduces(cfg: Cfg)
    ensures Reduced(cfg, Pruned(cfg, UsedSlots(cfg)))
  {
    hide Retained, Dropped, TerminatorUses, UsesOf;
    var used := UsedSlots(cfg);
    var after := Pruned(cfg, used);
    forall s | s in UsedSlots(after) ensures s in used {
      var b :| b in after.blocks && s in BlockUses(after.blocks[b]);
      UsesShrink(cfg.blocks[b].instructions, after.blocks[b].instructions);
      UsedInBlock(cfg, b);
    }
    forall b | b in cfg.blocks ensures ReducedAt(cfg.blocks[b], after.blocks[b], UsedSlots(after)) {
      RetainedDrops(cfg.blocks[b].instructions, used);
      DroppedFewerUsed(cfg.blocks[b].instructions, after.blocks[b].instructions, used, UsedSlots(after));
    }
  }

  lemma ReducedTwice(a: Cfg, b: Cfg, c: Cfg)
    requires Reduced(a, b) && Reduced(b, c)
    ensures Reduced(a, c)
  {
    hide UsedSlots, Dropped;
    forall x | x in a.blocks ensures ReducedAt(a.blocks[x], c.blocks[x], UsedSlots(c)) {
      assert ReducedAt(a.blocks[x], b.blocks[x], UsedSlots(b)) && ReducedAt(b.blocks[x], c.blocks[x], UsedSlots(c));
      DroppedFewerUsed(a.blocks[x].instructions, b.blocks[x].instructions, UsedSlots(b), UsedSlots(c));
      DroppedTwice(a.blocks[x].instructions, b.blocks[x].instructions, c.blocks[x].instructions, UsedSlots(c));
    }
  }

  /** Every instruction that is left stores, calls, or writes a slot that something left reads. */
  ghost predicate NothingDead(cfg: Cfg) {
    forall b, i :: b in cfg.blocks && 0 <= i < |cfg.blocks[b].instructions| ==>
      Needed(cfg.blocks[b].instructions[i], UsedSlots(cfg))
  }

  lemma FixedPointIsClean(cfg: Cfg)
    requires cfg == Pruned(cfg, UsedSlots(cfg))
    ensures NothingDead(cfg)
  {
    hide UsedSlots, Needed, Retained;
    forall b, i | b in cfg.blocks && 0 <= i < |cfg.blocks[b].instructions|
      ensures Needed(cfg.blocks[b].instructions[i], UsedSlots(cfg))
    {
      assert cfg.blocks[b] == PrunedBlock(cfg.blocks[b], UsedSlots(cfg));
      RetainedIsNeeded(cfg.blocks[b].instructions, UsedSlots(cfg));
      assert cfg.blocks[b].instructions[i] in Retained(cfg.blocks[b].instructions, UsedSlots(cfg));
    }
  }
}
