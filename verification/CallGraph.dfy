/**
 * Which functions lead to external calls (analyzer/src/storage.rs): a depth-first
 * search through internal calls. Its answer is exact.
 */
module CallGraph {
  import opened Sequences
  import opened Graphs
  import opened Ssa

  type FnId = nat

  /** The functions of a contract; every internal call is to one of them. */
  type Contract = map<FnId, Blocks>

  predicate CallsInternally(inst: Instruction, g: FnId) {
    inst.Call? && inst.target == Internal(g)
  }

  predicate CallsExternally(inst: Instruction) {
    inst.Call? && inst.target.External?
  }

  ghost predicate HasInstruction(blocks: Blocks, inst: Instruction) {
    exists b :: b in blocks && inst in blocks[b].body
  }

  ghost predicate Calls(contract: Contract, f: FnId, g: FnId) {
    f in contract && exists inst :: HasInstruction(contract[f], inst) && CallsInternally(inst, g)
  }

  ghost predicate CallsOut(contract: Contract, f: FnId) {
    f in contract && exists inst :: HasInstruction(contract[f], inst) && CallsExternally(inst)
  }

  ghost predicate Complete(contract: Contract) {
    forall f, g :: Calls(contract, f, g) ==> g in contract
  }

  /** A chain of internal calls. */
  ghost predicate CallChain(contract: Contract, p: seq<FnId>) {
    p != [] && p[0] in contract && forall i :: 0 <= i < |p| - 1 ==> Calls(contract, p[i], p[i + 1])
  }

  /** Calls from f lead, directly or through others, to an external call. */
  ghost predicate LeadsOut(contract: Contract, f: FnId) {
    exists p :: CallChain(contract, p) && p[0] == f && CallsOut(contract, p[|p| - 1])
  }

  ghost predicate HasStore(contract: Contract, f: FnId) {
    f in contract && exists inst :: HasInstruction(contract[f], inst) && inst.StorageStore?
  }

  /** Calls from f lead, directly or through others, to a function with a store; f itself may be that one. */
  ghost predicate LeadsToStore(contract: Contract, f: FnId) {
    exists p :: CallChain(contract, p) && p[0] == f && HasStore(contract, p[|p| - 1])
  }

  lemma StoresDirectly(contract: Contract, f: FnId)
    requires HasStore(contract, f)
    ensures LeadsToStore(contract, f)
  {
    hide Calls;
    assert CallChain(contract, [f]);
  }

  lemma StoresThrough(contract: Contract, f: FnId, g: FnId)
    requires Calls(contract, f, g) && LeadsToStore(contract, g)
    ensures LeadsToStore(contract, f)
  {
    hide Calls, HasStore;
    var p :| CallChain(contract, p) && p[0] == g && HasStore(contract, p[|p| - 1]);
    InContract(contract, f, g);
    var q := [f] + p;
    assert forall i :: 0 <= i < |q| - 1 ==> Calls(contract, q[i], q[i + 1]);
    assert CallChain(contract, q) && q[|q| - 1] == p[|p| - 1];
  }

  lemma LeadsOutDirectly(contract: Contract, f: FnId)
    requires CallsOut(contract, f)
    ensures LeadsOut(contract, f)
  {
    hide Calls;
    assert CallChain(contract, [f]);
  }

  lemma LeadsOutThrough(contract: Contract, f: FnId, g: FnId)
    requires Calls(contract, f, g) && LeadsOut(contract, g)
    ensures LeadsOut(contract, f)
  {
    hide Calls, CallsOut;
    var p :| CallChain(contract, p) && p[0] == g && CallsOut(contract, p[|p| - 1]);
    InContract(contract, f, g);
    var q := [f] + p;
    assert forall i :: 0 <= i < |q| - 1 ==> Calls(contract, q[i], q[i + 1]);
    assert CallChain(contract, q) && q[|q| - 1] == p[|p| - 1];
  }

  lemma InContract(contract: Contract, f: FnId, g: FnId)
    requires Calls(contract, f, g)
    ensures f in contract
  {
  }

  /** The functions in `newly` call nothing external, and what they call has been visited. */
  ghost predicate Harmless(contract: Contract, newly: set<FnId>, visited: set<FnId>) {
    forall f :: f in newly ==> !CallsOut(contract, f) && forall g :: Calls(contract, f, g) ==> g in visited
  }

  lemma {:induction false} ClosedIsHarmless(contract: Contract, visited: set<FnId>, p: seq<FnId>)
    requires Complete(contract) && Harmless(contract, visited, visited) && CallChain(contract, p) && p[0] in visited
    ensures !CallsOut(contract, p[|p| - 1])
    decreases |p|
  {
    hide CallsOut, Calls;
    if |p| > 1 {
      assert Calls(contract, p[0], p[1]);
      var q := p[1..];
      forall i | 0 <= i < |q| - 1 ensures Calls(contract, q[i], q[i + 1]) {
        assert Calls(contract, p[i + 1], p[i + 2]);
      }
      ClosedIsHarmless(contract, visited, q);
    }
  }

  /** The first k instructions of a block have been looked at. */
  ghost predicate LookedAt(contract: Contract, insts: seq<Instruction>, k: nat, visited: set<FnId>)
    requires k <= |insts|
  {
    forall i :: 0 <= i < k ==>
      !CallsExternally(insts[i]) && forall g :: CallsInternally(insts[i], g) ==> g in visited
  }

  /** The blocks in `done` have been looked at. */
  ghost predicate BlocksLookedAt(contract: Contract, blocks: Blocks, done: set<BlockId>, visited: set<FnId>) {
    forall b :: b in done && b in blocks ==> LookedAt(contract, blocks[b].body, |blocks[b].body|, visited)
  }

  lemma AllLookedAt(contract: Contract, f: FnId, visited: set<FnId>)
    requires f in contract && BlocksLookedAt(contract, contract[f], contract[f].Keys, visited)
    ensures !CallsOut(contract, f) && forall g :: Calls(contract, f, g) ==> g in visited
  {
    forall inst | HasInstruction(contract[f], inst)
      ensures !CallsExternally(inst) && forall g :: CallsInternally(inst, g) ==> g in visited
    {
      var b :| b in contract[f] && inst in contract[f][b].body;
      var i :| 0 <= i < |contract[f][b].body| && contract[f][b].body[i] == inst;
      assert LookedAt(contract, contract[f][b].body, |contract[f][b].body|, visited);
    }
  }

  lemma LookedMore(contract: Contract, insts: seq<Instruction>, k: nat, visited: set<FnId>, more: set<FnId>)
    requires k <= |insts| && LookedAt(contract, insts, k, visited) && visited <= more
    ensures LookedAt(contract, insts, k, more)
  {
  }

  lemma BlocksLookedMore(contract: Contract, blocks: Blocks, done: set<BlockId>, visited: set<FnId>, more: set<FnId>)
    requires BlocksLookedAt(contract, blocks, done, visited) && visited <= more
    ensures BlocksLookedAt(contract, blocks, done, more)
  {
    forall b | b in done && b in blocks ensures LookedAt(contract, blocks[b].body, |blocks[b].body|, more) {
      LookedMore(contract, blocks[b].body, |blocks[b].body|, visited, more);
    }
  }

  /** The search at one function. When it finds nothing, all it visited is harmless. */
  method ContainsExternalCalls(
      contract: Contract, f: FnId, visited: set<FnId>)
    returns (found: bool, visited': set<FnId>)
    requires Complete(contract) && f in contract && visited <= contract.Keys
    ensures visited <= visited' <= contract.Keys
    ensures found ==> LeadsOut(contract, f)
    ensures !found ==> f in visited' && Harmless(contract, visited' - visited, visited')
    decreases contract.Keys - visited, 2
  {
    hide Complete, LeadsOut, Calls, CallsOut, Harmless, BlocksLookedAt, Distinct;
    visited' := visited;
    found := false;
    if f in visited {
      NothingFresh(contract, visited);
      return;
    }
    visited' := visited' + {f};
    ghost var before := visited';
    NoneSeen(contract, contract[f], visited');
    var ids := AnyOrder(contract[f].Keys);
    for k := 0 to |ids|
      invariant before <= visited' <= contract.Keys && !found
      invariant BlocksLookedAt(contract, contract[f], ToSet(ids[..k]), visited')
      invariant Harmless(contract, visited' - before, visited')
    {
      PrefixGrows(ids, k);
      ghost var seen := visited';
      found, visited' := SearchBlock(contract, f, ids[k], visited', visited);
      if found {
        return;
      }
      BlocksLookedMore(contract, contract[f], ToSet(ids[..k]), seen, visited');
      OneMoreBlock(contract, contract[f], ToSet(ids[..k]), ids[k], visited');
      HarmlessChain(contract, before, seen, visited');
    }
    assert ids[..|ids|] == ids;
    AllLookedAt(contract, f, visited');
    WithSelf(contract, visited, f, visited');
  }

  /** The instructions of one block. */
  method SearchBlock(contract: Contract, f: FnId, b: BlockId, visited: set<FnId>, ghost outer: set<FnId>)
    returns (found: bool, visited': set<FnId>)
    requires Complete(contract) && f in contract && b in contract[f] && outer < visited <= contract.Keys
    ensures visited <= visited' <= contract.Keys
    ensures found ==> LeadsOut(contract, f)
    ensures !found ==> LookedAt(contract, contract[f][b].body, |contract[f][b].body|, visited')
    ensures !found ==> Harmless(contract, visited' - visited, visited')
    decreases contract.Keys - outer, 1
  {
    hide Complete, LeadsOut, Calls, CallsOut, Harmless, LookedAt;
    found, visited' := false, visited;
    var insts := contract[f][b].body;
    NothingFresh(contract, visited);
    NothingLookedAt(contract, insts, visited);
    for i := 0 to |insts|
      invariant visited <= visited' <= contract.Keys && !found
      invariant LookedAt(contract, insts, i, visited') && Harmless(contract, visited' - visited, visited')
    {
      CallOf(contract, f, b, i);
      ghost var seen := visited';
      if CallsExternally(insts[i]) {
        LeadsOutDirectly(contract, f);
        return true, visited';
      }
      if insts[i].Call? && insts[i].target.Internal? {
        var g := insts[i].target.fn;
        CalleeKnown(contract, f, g);
        found, visited' := ContainsExternalCalls(contract, g, visited');
        if found {
          LeadsOutThrough(contract, f, g);
          return;
        }
        HarmlessChain(contract, visited, seen, visited');
      }
      LookedMore(contract, insts, i, seen, visited');
      OneMoreLookedAt(contract, insts, i, visited');
    }
  }

  lemma CalleeKnown(contract: Contract, f: FnId, g: FnId)
    requires Complete(contract) && Calls(contract, f, g)
    ensures g in contract
  {
  }

  lemma CallOf(contract: Contract, f: FnId, b: BlockId, i: nat)
    requires f in contract && b in contract[f] && i < |contract[f][b].body|
    ensures CallsExternally(contract[f][b].body[i]) ==> CallsOut(contract, f)
    ensures forall g :: CallsInternally(contract[f][b].body[i], g) ==> Calls(contract, f, g)
  {
    assert HasInstruction(contract[f], contract[f][b].body[i]);
  }

  lemma NothingFresh(contract: Contract, visited: set<FnId>)
    ensures Harmless(contract, visited - visited, visited)
  {
  }

  lemma NothingLookedAt(contract: Contract, insts: seq<Instruction>, visited: set<FnId>)
    ensures LookedAt(contract, insts, 0, visited)
  {
  }

  lemma OneMoreLookedAt(contract: Contract, insts: seq<Instruction>, i: nat, visited: set<FnId>)
    requires i < |insts| && LookedAt(contract, insts, i, visited) && !CallsExternally(insts[i])
    requires insts[i].Call? && insts[i].target.Internal? ==> insts[i].target.fn in visited
    ensures LookedAt(contract, insts, i + 1, visited)
  {
  }

  lemma NoneSeen(contract: Contract, blocks: Blocks, visited: set<FnId>)
    ensures BlocksLookedAt(contract, blocks, ToSet([]), visited) && Harmless(contract, visited - visited, visited)
  {
  }

  lemma OneMoreBlock(contract: Contract, blocks: Blocks, done: set<BlockId>, b: BlockId, visited: set<FnId>)
    requires BlocksLookedAt(contract, blocks, done, visited) && b in blocks
    requires LookedAt(contract, blocks[b].body, |blocks[b].body|, visited)
    ensures BlocksLookedAt(contract, blocks, done + {b}, visited)
  {
    hide LookedAt;
  }

  lemma HarmlessChain(contract: Contract, a: set<FnId>, b: set<FnId>, c: set<FnId>)
    requires a <= b <= c && Harmless(contract, b - a, b) && Harmless(contract, c - b, c)
    ensures Harmless(contract, c - a, c)
  {
    hide CallsOut, Calls;
  }

  lemma WithSelf(contract: Contract, visited: set<FnId>, f: FnId, visited': set<FnId>)
    requires visited + {f} <= visited' && Harmless(contract, visited' - (visited + {f}), visited')
    requires !CallsOut(contract, f) && forall g :: Calls(contract, f, g) ==> g in visited'
    ensures Harmless(contract, visited' - visited, visited')
  {
    hide CallsOut, Calls;
  }

  lemma NothingFoundIsExact(contract: Contract, f: FnId, visited: set<FnId>)
    requires Complete(contract) && f in visited && Harmless(contract, visited, visited)
    ensures !LeadsOut(contract, f)
  {
    hide CallsOut, Calls, Harmless;
    if LeadsOut(contract, f) {
      var p :| CallChain(contract, p) && p[0] == f && CallsOut(contract, p[|p| - 1]);
      ClosedIsHarmless(contract, visited, p);
    }
  }

  /** The functions of a contract from which an external call can be reached: exactly those. */
  method Analyze(contract: Contract) returns (external: set<FnId>)
    requires Complete(contract)
    ensures forall f :: f in external <==> f in contract && LeadsOut(contract, f)
  {
    hide Complete, LeadsOut, Harmless, Distinct;
    external := {};
    var order := AnyOrder(contract.Keys);
    for k := 0 to |order|
      invariant forall f :: f in external <==> f in ToSet(order[..k]) && LeadsOut(contract, f)
    {
      PrefixGrows(order, k);
      var found, visited := ContainsExternalCalls(contract, order[k], {});
      if found {
        external := external + {order[k]};
      } else {
        assert visited - {} == visited;
        NothingFoundIsExact(contract, order[k], visited);
      }
    }
    assert order[..|order|] == order;
  }
}
