/**
 * What the call graph says about storage is what runs do: a function from which no
 * chain of calls leads to a store leaves storage alone, however it runs.
 */
module StorageEffects {
  import opened Words
  import opened Ssa
  import opened SsaSemantics
  import opened SourceRuns
  import CallGraph

  function ContractOf(p: SourceProgram): CallGraph.Contract {
    map fn | fn in p :: p[fn].blocks
  }

  /** No active function leads to a store. */
  ghost predicate Quiet(p: SourceProgram, acts: seq<Activation>) {
    forall i :: 0 <= i < |acts| ==> !CallGraph.LeadsToStore(ContractOf(p), acts[i].fn)
  }

  /** Storage is still this one, unless the run has failed. */
  predicate StillHolds(c: Run, storage: Storage) {
    c.Failed? || c.storage == storage
  }

  lemma InstructionOf(p: SourceProgram, fn: FnId, b: BlockId, i: nat)
    requires fn in p && b in p[fn].blocks && i < |p[fn].blocks[b].body|
    ensures var inst := p[fn].blocks[b].body[i];
            && (inst.StorageStore? ==> CallGraph.LeadsToStore(ContractOf(p), fn))
            && (inst.Call? && inst.target.Internal? ==> CallGraph.Calls(ContractOf(p), fn, inst.target.fn))
  {
    hide CallGraph.LeadsToStore;
    var inst := p[fn].blocks[b].body[i];
    assert CallGraph.HasInstruction(ContractOf(p)[fn], inst);
    if inst.StorageStore? {
      CallGraph.StoresDirectly(ContractOf(p), fn);
    } else if inst.Call? && inst.target.Internal? {
      assert CallGraph.CallsInternally(inst, inst.target.fn);
    }
  }

  lemma PlainKeepsStorage(inst: Instruction, regs: Regs, storage: Storage)
    requires !inst.StorageStore? && !inst.Call?
    ensures Execute(inst, regs, storage, NoCall).1 == storage
  {
  }

  lemma QuietStep(p: SourceProgram, c: Run)
    requires c.Live? && Quiet(p, c.acts)
    ensures StillHolds(StepSource(p, c), c.storage)
    ensures StepSource(p, c).Live? ==> Quiet(p, StepSource(p, c).acts)
  {
    hide CallGraph.LeadsToStore, CallGraph.Calls, ContractOf, Execute, Values, BoundArguments;
    if c.acts != [] && c.acts[0].fn in p && c.acts[0].block in p[c.acts[0].fn].blocks {
      var a := c.acts[0];
      var body := p[a.fn].blocks[a.block].body;
      if a.index < |body| {
        InstructionOf(p, a.fn, a.block, a.index);
        var inst := body[a.index];
        if inst.Call? && inst.target.Internal? {
          CalleeIsQuiet(p, a.fn, inst.target.fn);
        } else if !inst.Call? {
          PlainKeepsStorage(inst, a.regs, c.storage);
        }
      }
    }
  }

  lemma CalleeIsQuiet(p: SourceProgram, f: FnId, g: FnId)
    requires CallGraph.Calls(ContractOf(p), f, g) && !CallGraph.LeadsToStore(ContractOf(p), f)
    ensures !CallGraph.LeadsToStore(ContractOf(p), g)
  {
    hide CallGraph.Calls, CallGraph.LeadsToStore;
    if CallGraph.LeadsToStore(ContractOf(p), g) {
      CallGraph.StoresThrough(ContractOf(p), f, g);
    }
  }

  lemma {:induction false} QuietRun(p: SourceProgram, c: Run, n: nat)
    requires c.Live? && Quiet(p, c.acts)
    ensures StillHolds(RunSource(p, c, n), c.storage)
    decreases n
  {
    hide Quiet, StepSource;
    if n > 0 {
      QuietStep(p, c);
      var c' := StepSource(p, c);
      if c'.Live? {
        QuietRun(p, c', n - 1);
      } else {
        assert RunSource(p, c', n - 1) == c';
      }
    }
  }

  /** Whatever a function is called with, storage is what it was unless calls from it lead to a store. */
  lemma NoWriterKeepsStorage(p: SourceProgram, fn: FnId, values: seq<Word>, storage: Storage, n: nat)
    requires fn in p && |values| == |p[fn].parameters| && !CallGraph.LeadsToStore(ContractOf(p), fn)
    ensures StillHolds(RunSource(p, Live([Invoke(p[fn], fn, values)], storage), n), storage)
  {
    hide CallGraph.LeadsToStore, StepSource;
    QuietRun(p, Live([Invoke(p[fn], fn, values)], storage), n);
  }
}
