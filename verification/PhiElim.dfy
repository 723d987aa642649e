/**
 * Phi elimination (codegen/src/lib.rs): a copy at the end of each predecessor for every
 * source of every phi node, in whatever order they were collected.
 */
module PhiElim {
  import opened Sequences
  import opened Graphs
  import opened Ssa
  import opened SsaSemantics
  import opened PhiPlacement

  /** The copy that a source of a phi node becomes. */
  function CopyOf(phi: Phi, r: Register): Instruction {
    Copy(phi.dest, Location(r))
  }

  ghost predicate FromPhi(phi: Phi, p: BlockId, c: Instruction) {
    exists r :: (p, r) in phi.sources && c == CopyOf(phi, r)
  }

  ghost predicate FromPhis(phis: seq<Phi>, p: BlockId, c: Instruction) {
    exists k :: 0 <= k < |phis| && FromPhi(phis[k], p, c)
  }

  /** The copies block p owes to the phi nodes of the blocks in `done`. */
  ghost predicate Owed(blocks: Blocks, done: set<BlockId>, p: BlockId, c: Instruction) {
    exists b :: b in done && b in blocks && FromPhis(blocks[b].phis, p, c)
  }

  type Copies = map<BlockId, seq<Instruction>>

  function CopiesFor(copies: Copies, p: BlockId): seq<Instruction> {
    if p in copies then copies[p] else []
  }

  /** Every block lost its phi nodes and gained exactly the copies it owes, in some order. */
  ghost predicate EliminatedAt(blocks0: Blocks, b: Block, p: BlockId)
    requires p in blocks0
  {
    && b == blocks0[p].(phis := [], body := b.body)
    && blocks0[p].body <= b.body
    && forall c :: c in b.body[|blocks0[p].body|..] <==> Owed(blocks0, blocks0.Keys, p, c)
  }

  ghost predicate Eliminated(blocks0: Blocks, blocks1: Blocks) {
    blocks1.Keys == blocks0.Keys && forall p :: p in blocks0 ==> EliminatedAt(blocks0, blocks1[p], p)
  }

  // ---------------------------------------------------------------------------
  // How many copies
  // ---------------------------------------------------------------------------

  /** How often the first n sources of a phi node ask block p for the copy c. */
  function AskedBySources(phi: Phi, n: nat, p: BlockId, c: Instruction): nat
    requires n <= |phi.sources|
  {
    if n == 0 then 0
    else
      AskedBySources(phi, n - 1, p, c)
      + if phi.sources[n - 1].0 == p && CopyOf(phi, phi.sources[n - 1].1) == c then 1 else 0
  }

  function AskedByPhis(phis: seq<Phi>, k: nat, p: BlockId, c: Instruction): nat
    requires k <= |phis|
  {
    if k == 0 then 0 else AskedByPhis(phis, k - 1, p, c) + AskedBySources(phis[k - 1], |phis[k - 1].sources|, p, c)
  }

  /** The same for all phi nodes of some blocks. */
  ghost function Asked(blocks: Blocks, done: set<BlockId>, p: BlockId, c: Instruction): nat
    requires done <= blocks.Keys
  {
    if done == {} then 0
    else
      var b :| b in done;
      AskedByPhis(blocks[b].phis, |blocks[b].phis|, p, c) + Asked(blocks, done - {b}, p, c)
  }

  /** It does not matter which block is counted first. */
  lemma {:induction false} AskedWith(blocks: Blocks, done: set<BlockId>, b: BlockId, p: BlockId, c: Instruction)
    requires done <= blocks.Keys && b in done
    ensures Asked(blocks, done, p, c) ==
            AskedByPhis(blocks[b].phis, |blocks[b].phis|, p, c) + Asked(blocks, done - {b}, p, c)
    decreases done
  {
    hide AskedByPhis;
    var a: BlockId :| a in done && Asked(blocks, done, p, c) ==
      AskedByPhis(blocks[a].phis, |blocks[a].phis|, p, c) + Asked(blocks, done - {a}, p, c);
    if a != b {
      AskedWith(blocks, done - {a}, b, p, c);
      AskedWith(blocks, done - {b}, a, p, c);
      assert done - {a} - {b} == done - {b} - {a};
    }
  }

  /** How often c is among the copies for block p. */
  function Copied(copies: Copies, p: BlockId, c: Instruction): nat {
    multiset(CopiesFor(copies, p))[c]
  }

  ghost predicate AsAsked(blocks0: Blocks, b: Block, p: BlockId)
    requires p in blocks0
  {
    forall c :: multiset(b.body)[c] == multiset(blocks0[p].body)[c] + Asked(blocks0, blocks0.Keys, p, c)
  }

  /** Every block gained each copy exactly as often as phi nodes ask for it. */
  ghost predicate CopiedAsAsked(blocks0: Blocks, blocks1: Blocks) {
    blocks1.Keys == blocks0.Keys && forall p :: p in blocks0 ==> AsAsked(blocks0, blocks1[p], p)
  }

  // ---------------------------------------------------------------------------
  // Collecting
  // ---------------------------------------------------------------------------

  /** `after` has, for every block, the copies of `before` and those of the first n sources of a phi node. */
  ghost predicate CollectedSources(before: Copies, after: Copies, phi: Phi, n: nat)
    requires n <= |phi.sources|
  {
    forall p: BlockId, c: Instruction :: c in CopiesFor(after, p) <==>
                   c in CopiesFor(before, p) ||
                     exists j :: 0 <= j < n && phi.sources[j].0 == p && c == CopyOf(phi, phi.sources[j].1)
  }

  method CollectPhi(before: Copies, phi: Phi) returns (copies: Copies)
    ensures forall p: BlockId, c: Instruction :: c in CopiesFor(copies, p) <==>
        c in CopiesFor(before, p) || FromPhi(phi, p, c)
    ensures forall p, c :: Copied(copies, p, c) == Copied(before, p, c) + AskedBySources(phi, |phi.sources|, p, c)
  {
    hide FromPhi, Copied;
    copies := before;
    for j := 0 to |phi.sources|
      invariant CollectedSources(before, copies, phi, j)
      invariant forall p, c :: Copied(copies, p, c) == Copied(before, p, c) + AskedBySources(phi, j, p, c)
    {
      var (p, r) := phi.sources[j];
      ghost var now := copies;
      copies := copies[p := (if p in copies then copies[p] else []) + [CopyOf(phi, r)]];
      CollectOne(before, now, copies, phi, j);
      CopiedOne(now, copies, p, CopyOf(phi, r));
    }
    CollectedPhi(before, copies, phi);
  }

  lemma CopiedOne(now: Copies, after: Copies, p: BlockId, d: Instruction)
    requires after == now[p := CopiesFor(now, p) + [d]]
    ensures forall q, c :: Copied(after, q, c) == Copied(now, q, c) + if q == p && c == d then 1 else 0
  {
  }

  lemma CollectOne(before: Copies, now: Copies, after: Copies, phi: Phi, j: nat)
    requires j < |phi.sources| && CollectedSources(before, now, phi, j)
    requires after == now[phi.sources[j].0 := CopiesFor(now, phi.sources[j].0) + [CopyOf(phi, phi.sources[j].1)]]
    ensures CollectedSources(before, after, phi, j + 1)
  {
    forall p: BlockId, c: Instruction
      ensures c in CopiesFor(after, p) <==>
              c in CopiesFor(before, p) ||
                exists i :: 0 <= i < j + 1 && phi.sources[i].0 == p && c == CopyOf(phi, phi.sources[i].1)
    {
      assert c in CopiesFor(now, p) <==>
             c in CopiesFor(before, p) ||
               exists i :: 0 <= i < j && phi.sources[i].0 == p && c == CopyOf(phi, phi.sources[i].1);
    }
  }

  lemma CollectedPhi(before: Copies, after: Copies, phi: Phi)
    requires CollectedSources(before, after, phi, |phi.sources|)
    ensures forall p: BlockId, c: Instruction :: c in CopiesFor(after, p) <==>
        c in CopiesFor(before, p) || FromPhi(phi, p, c)
  {
    forall p: BlockId, c: Instruction ensures c in CopiesFor(after, p) <==>
        c in CopiesFor(before, p) || FromPhi(phi, p, c) {
      if FromPhi(phi, p, c) {
        var r :| (p, r) in phi.sources && c == CopyOf(phi, r);
        var j :| 0 <= j < |phi.sources| && phi.sources[j] == (p, r);
        assert phi.sources[j].0 == p && c == CopyOf(phi, phi.sources[j].1);
      }
      if j :| 0 <= j < |phi.sources| && phi.sources[j].0 == p && c == CopyOf(phi, phi.sources[j].1) {
        assert phi.sources[j] == (p, phi.sources[j].1);
      }
    }
  }

  method CollectBlock(before: Copies, phis: seq<Phi>) returns (copies: Copies)
    ensures forall p: BlockId, c: Instruction :: c in CopiesFor(copies, p) <==>
        c in CopiesFor(before, p) || FromPhis(phis, p, c)
    ensures forall p, c :: Copied(copies, p, c) == Copied(before, p, c) + AskedByPhis(phis, |phis|, p, c)
  {
    hide FromPhi, CopiesFor, Copied, AskedBySources;
    copies := before;
    for k := 0 to |phis|
      invariant forall p, c :: Copied(copies, p, c) == Copied(before, p, c) + AskedByPhis(phis, k, p, c)
      invariant forall p: BlockId, c: Instruction :: c in CopiesFor(copies, p) <==>
          c in CopiesFor(before, p) || FromPhis(phis[..k], p, c)
    {
      PhisNext(phis, k);
      copies := CollectPhi(copies, phis[k]);
    }
    assert phis[..|phis|] == phis;
  }

  lemma PhisNext(phis: seq<Phi>, k: nat)
    requires k < |phis|
    ensures forall p: BlockId, c: Instruction :: FromPhis(phis[..k + 1], p, c) <==>
        FromPhis(phis[..k], p, c) || FromPhi(phis[k], p, c)
  {
    hide FromPhi;
    forall p: BlockId, c: Instruction ensures FromPhis(phis[..k + 1], p, c) <==>
        FromPhis(phis[..k], p, c) || FromPhi(phis[k], p, c) {
      var longer, shorter := phis[..k + 1], phis[..k];
      if FromPhi(phis[k], p, c) {
        assert FromPhi(longer[k], p, c);
      }
      if j :| 0 <= j < |shorter| && FromPhi(shorter[j], p, c) {
        assert FromPhi(longer[j], p, c);
      }
      if j :| 0 <= j < |longer| && FromPhi(longer[j], p, c) {
        if j < k {
          assert FromPhi(shorter[j], p, c);
        }
      }
    }
  }

  method CollectCopies(blocks: Blocks) returns (copies: Copies)
    ensures forall p: BlockId, c: Instruction :: c in CopiesFor(copies, p) <==> Owed(blocks, blocks.Keys, p, c)
    ensures forall p, c :: Copied(copies, p, c) == Asked(blocks, blocks.Keys, p, c)
  {
    hide FromPhis, CopiesFor, ToSet, Distinct, Copied, Asked, AskedByPhis;
    copies := map[];
    NothingOwed(blocks, copies);
    var ids := AnyOrder(blocks.Keys);
    for i := 0 to |ids|
      invariant ToSet(ids[..i]) <= blocks.Keys
      invariant forall p, c :: Copied(copies, p, c) == Asked(blocks, ToSet(ids[..i]), p, c)
      invariant forall p: BlockId, c: Instruction :: c in CopiesFor(copies, p) <==> Owed(blocks, ToSet(ids[..i]), p, c)
    {
      PrefixGrows(ids, i);
      NotBefore(ids, i);
      OwedNext(blocks, ToSet(ids[..i]), ids[i]);
      AskedNext(blocks, ToSet(ids[..i]), ids[i]);
      copies := CollectBlock(copies, blocks[ids[i]].phis);
    }
    assert ids[..|ids|] == ids;
  }

  lemma AskedNext(blocks: Blocks, done: set<BlockId>, b: BlockId)
    requires done <= blocks.Keys && b in blocks && b !in done
    ensures forall p, c :: Asked(blocks, done + {b}, p, c) ==
                           Asked(blocks, done, p, c) + AskedByPhis(blocks[b].phis, |blocks[b].phis|, p, c)
  {
    hide AskedByPhis, Asked;
    forall p, c
      ensures Asked(blocks, done + {b}, p, c) ==
              Asked(blocks, done, p, c) + AskedByPhis(blocks[b].phis, |blocks[b].phis|, p, c)
    {
      AskedWith(blocks, done + {b}, b, p, c);
      assert done + {b} - {b} == done;
    }
  }

  lemma NothingOwed(blocks: Blocks, copies: Copies)
    requires copies == map[]
    ensures ToSet<BlockId>([]) == {} && forall p, c :: Copied(copies, p, c) == Asked(blocks, {}, p, c)
    ensures forall p: BlockId, c: Instruction :: c in CopiesFor(copies, p) <==> Owed(blocks, ToSet([]), p, c)
  {
  }

  lemma OwedNext(blocks: Blocks, done: set<BlockId>, b: BlockId)
    requires b in blocks
    ensures forall p: BlockId, c: Instruction :: Owed(blocks, done + {b}, p, c) <==>
        Owed(blocks, done, p, c) || FromPhis(blocks[b].phis, p, c)
  {
    hide FromPhis;
    forall p: BlockId, c: Instruction ensures Owed(blocks, done + {b}, p, c) <==>
        Owed(blocks, done, p, c) || FromPhis(blocks[b].phis, p, c) {
      if d :| d in done && d in blocks && FromPhis(blocks[d].phis, p, c) {
        assert d in done + {b};
      }
      if FromPhis(blocks[b].phis, p, c) {
        assert b in done + {b};
      }
    }
  }

  /** Drop the phi nodes and append the copies, block by block. */
  method EliminatePhiNodes(f: SsaFunction)
    modifies f`blocks
    ensures Eliminated(old(f.blocks), f.blocks) && CopiedAsAsked(old(f.blocks), f.blocks)
  {
    hide Owed, CopiesFor, EliminatedAt, ToSet, Distinct, Copied, Asked;
    ghost var blocks0 := f.blocks;
    var copies := CollectCopies(f.blocks);
    var ids := AnyOrder(f.blocks.Keys);
    NoElements<BlockId>([]);
    for i := 0 to |ids|
      invariant f.blocks.Keys == blocks0.Keys == ToSet(ids) && Distinct(ids)
      invariant forall p :: p in blocks0 ==>
        if p in ToSet(ids[..i]) then EliminatedAt(blocks0, f.blocks[p], p) && AsAsked(blocks0, f.blocks[p], p)
        else f.blocks[p] == blocks0[p]
    {
      PrefixGrows(ids, i);
      NotBefore(ids, i);
      var p := ids[i];
      var b := f.blocks[p];
      b := b.(phis := []);
      if p in copies {
        b := b.(body := b.body + copies[p]);
      }
      IsEliminated(blocks0, copies, p, b);
      f.blocks := f.blocks[p := b];
    }
    assert ids[..|ids|] == ids;
  }

  lemma IsEliminated(blocks0: Blocks, copies: Copies, p: BlockId, b: Block)
    requires p in blocks0 && forall c :: c in CopiesFor(copies, p) <==> Owed(blocks0, blocks0.Keys, p, c)
    requires forall c :: Copied(copies, p, c) == Asked(blocks0, blocks0.Keys, p, c)
    requires b == blocks0[p].(phis := [], body := if p in copies then blocks0[p].body + copies[p] else blocks0[p].body)
    ensures EliminatedAt(blocks0, b, p) && AsAsked(blocks0, b, p)
  {
    hide Owed, Asked;
    assert b.body[|blocks0[p].body|..] == CopiesFor(copies, p);
    assert b.body == blocks0[p].body + CopiesFor(copies, p);
  }

  // ---------------------------------------------------------------------------
  // Copies in a row are one simultaneous assignment
  // ---------------------------------------------------------------------------

  /**
   * The copies of each symbol share their source, which has that symbol. This is
   * what renaming guarantees of the copies of one block.
   */
  ghost predicate SourcesShared(copies: seq<Instruction>) {
    && (forall c :: c in copies ==> c.Copy? && c.source.Location? && c.source.reg.symbol == c.dest.symbol)
    && forall c, d :: c in copies && d in copies && c.dest.symbol == d.dest.symbol ==> c.source == d.source
  }

  /**
   * In any order, such copies have the effect of the simultaneous assignment: every
   * destination ends with what its source held before, and nothing else changes.
   */
  lemma {:induction false} CopiesAreSimultaneous(copies: seq<Instruction>, regs: Regs, storage: Storage, call: Oracle)
    requires SourcesShared(copies)
    ensures var (r, st) := ExecuteAll(copies, regs, storage, call);
            && st == storage
            && (forall c :: c in copies ==> Read(r, c.dest) == Read(regs, c.source.reg))
            && (forall x :: (forall c :: c in copies ==> c.dest != x) ==> Read(r, x) == Read(regs, x))
            && (forall c :: c in copies ==> Read(r, c.source.reg) == Read(regs, c.source.reg))
  {
    if copies != [] {
      var n := |copies| - 1;
      var init, last := copies[..n], copies[n];
      assert copies == init + [last];
      assert SourcesShared(init);
      CopiesAreSimultaneous(init, regs, storage, call);
      var (r0, st0) := ExecuteAll(init, regs, storage, call);
      LastCopy(init, last, regs, r0);
      ExecuteCopy(last, r0, st0, call);
    }
  }

  lemma ExecuteCopy(c: Instruction, regs: Regs, storage: Storage, call: Oracle)
    requires c.Copy? && c.source.Location?
    ensures Execute(c, regs, storage, call) == (regs[c.dest := Read(regs, c.source.reg)], storage)
  {
  }

  /** The source of the last copy still holds its old value: copies onto it copy it to itself. */
  lemma LastCopy(init: seq<Instruction>, last: Instruction, regs: Regs, r0: Regs)
    requires SourcesShared(init + [last])
    requires forall c :: c in init ==> Read(r0, c.dest) == Read(regs, c.source.reg)
    requires forall x :: (forall c :: c in init ==> c.dest != x) ==> Read(r0, x) == Read(regs, x)
    requires forall c :: c in init ==> Read(r0, c.source.reg) == Read(regs, c.source.reg)
    ensures Read(r0, last.source.reg) == Read(regs, last.source.reg)
    ensures var r := r0[last.dest := Read(r0, last.source.reg)];
            && (forall c :: c in init + [last] ==> Read(r, c.dest) == Read(regs, c.source.reg))
            && (forall c :: c in init + [last] ==> Read(r, c.source.reg) == Read(regs, c.source.reg))
            && (forall x :: (forall c :: c in init + [last] ==> c.dest != x) ==> Read(r, x) == Read(regs, x))
  {
    var all := init + [last];
    assert last in all && forall c :: c in init ==> c in all;
    if c :| c in init && c.dest == last.source.reg {
      assert c.source == last.source;
    }
    var r := r0[last.dest := Read(r0, last.source.reg)];
    forall c | c in all
      ensures Read(r, c.dest) == Read(regs, c.source.reg) && Read(r, c.source.reg) == Read(regs, c.source.reg)
    {
      if c.source.reg == last.dest || c.dest == last.dest {
        assert c.source == last.source;
      }
    }
  }
}
