/**
 * From functions as they are built to bytes: SSA construction, phi elimination,
 * lowering, the optimiser, code generation and assembly, one after the other. What
 * the bytes do is what the functions meant when they were built.
 */
module FromSource {
  import opened Wrappers
  import opened Sequences
  import opened Words
  import opened Bytes
  import opened Evm
  import opened Lowered
  import opened Semantics
  import opened Image
  import opened ProgramTheorem
  import opened ControlProofs
  import opened Assembler
  import opened ByteMachine
  import opened Compiler
  import opened DeadCodeMeaning
  import opened EndToEnd
  import opened Pipeline
  import opened Lowering
  import opened LoweringMeaning
  import opened ContractMeaning
  import opened Registers
  import Ssa
  import Source = SourceRuns
  import Graphs
  import PhiPlacement
  import PhiElim
  import RenamingMeaning
  import Definedness
  import SsaCorrect
  import SsaConstruction

  type SourceFunction = Source.SourceFunction

  ghost predicate SourceOk(src: SourceFunction) {
    SsaConstruction.AsBuilt(src.blocks, src.entry, src.parameters)
  }

  ghost predicate SourcesOk(sources: seq<SourceFunction>) {
    && (forall i :: 0 <= i < |sources| ==> SourceOk(sources[i]))
    && (forall i, j :: 0 <= i < j < |sources| ==> sources[i].id != sources[j].id)
  }

  // ---------------------------------------------------------------------------
  // One function
  // ---------------------------------------------------------------------------

  /** The function was lowered from this source, and how. */
  ghost predicate LoweredAs(src: SourceFunction, f: LoweredFunction, tr: Trail, keys: StorageKeys) {
    && f.id == src.id && f.fn.isExternal == src.isExternal && f.fn.returnsValue == src.returnsValue
    && LoweredBy(src, f.fn, tr, keys) && SsaConstruction.SameFlow(src.blocks, tr.elim) && f.slots == tr.m.Values
  }

  /** Why a function is not lowered: a read that no definition reaches, or a variable that storage does not have. */
  ghost predicate LoweringStops(src: SourceFunction, keys: StorageKeys, e: CodegenError) {
    if !Definedness.ReadsReached(src.blocks, src.entry, src.parameters) then e == UndefinedVariable
    else !KeysCover(src.blocks, keys) && e == MissingStorageKey
  }

  ghost predicate Lowerable(src: SourceFunction, keys: StorageKeys) {
    Definedness.ReadsReached(src.blocks, src.entry, src.parameters) && KeysCover(src.blocks, keys)
  }

  method LowerSource(src: SourceFunction, keys: StorageKeys) returns (r: Result<LoweredFunction>, ghost tr: Trail)
    requires SourceOk(src)
    ensures r.Ok? <==> Lowerable(src, keys)
    ensures r.Ok? ==> LoweredAs(src, r.value, tr, keys) && InputOk(r.value)
    ensures r.Err? ==> LoweringStops(src, keys, r.error)
  {
    hide SsaConstruction.SameFlow, SsaConstruction.RunsAgree, SsaConstruction.AsBuilt, Definedness.ReadsReached,
        LowersTo,
        Dense, RegistersOf, InputOk, ParametersLowered, LowerBlock, RenamingMeaning.FormOk, PhiElim.Eliminated,
            KeysCover;
    var f := new PhiPlacement.SsaFunction(src.blocks, src.entry, src.parameters);
    var ok, form := SsaConstruction.ConstructAndEliminate(f);
    tr := Trail(form, f.blocks, map[]);
    if !ok {
      return Err(UndefinedVariable), tr;
    }
    var registers := LowerRegisters(f.blocks, src.parameters);
    tr := Trail(form, f.blocks, registers);
    DenseIsInjective(registers);
    SameFlowKeys(src.blocks, f.blocks);
    var blocks := LowerBlocks(f.blocks, registers, keys);
    if blocks.Err? {
      StopsForKeys(src, tr, keys, blocks.error);
      return Err(blocks.error), tr;
    }
    AllKeysThere(src, tr, keys, blocks.value);
    AllParameters(f.blocks, src.parameters, registers);
    var slots := ParameterSlots(src.parameters, registers);
    var lowered := LoweredFunction(
      src.id, Function(Cfg(blocks.value, src.entry), slots, src.isExternal, src.returnsValue), registers.Values);
    LoweredInput(src, tr, keys, lowered);
    r := Ok(lowered);
  }

  lemma SameFlowKeys(blocks0: Ssa.Blocks, blocks1: Ssa.Blocks)
    requires SsaConstruction.SameFlow(blocks0, blocks1)
    ensures blocks1.Keys == blocks0.Keys
  {
  }

  lemma BuiltUnversioned(src: SourceFunction)
    requires SourceOk(src)
    ensures SsaCorrect.Unversioned(src.blocks)
  {
    hide SsaCorrect.Unversioned, Graphs.Reaches;
  }

  /** A block of the phi-free code lowers if and only if storage has the variables of the block as built. */
  lemma BlockStops(src: SourceFunction, tr: Trail, keys: StorageKeys, b: BlockId)
    requires TrailOf(src, tr) && tr.m.Keys == RegistersOf(tr.elim, src.parameters) && b in src.blocks && b in tr.elim
    ensures if KeysCoverBody(src.blocks[b].body, keys) then LowerBlock(tr.elim[b], tr.m, keys).Ok?
            else LowerBlock(tr.elim[b], tr.m, keys) == Err(MissingStorageKey)
  {
    hide RenamingMeaning.FormOk, PhiElim.Eliminated, SsaConstruction.AsBuilt, KeysCoverBody, LowerBlock, RegistersOf,
        SsaCorrect.Unversioned;
    BuiltUnversioned(src);
    BlockLowers(tr.form, tr.elim, b, tr.m, keys);
    SameVariables(tr.form, tr.elim, b, keys);
  }

  lemma StopsForKeys(src: SourceFunction, tr: Trail, keys: StorageKeys, e: CodegenError)
    requires TrailOf(src, tr) && tr.m.Keys == RegistersOf(tr.elim, src.parameters) && tr.elim.Keys == src.blocks.Keys
    requires exists b :: b in tr.elim && LowerBlock(tr.elim[b], tr.m, keys) == Err(e)
    ensures e == MissingStorageKey && !KeysCover(src.blocks, keys)
  {
    hide TrailOf, RegistersOf, LowerBlock, KeysCoverBody;
    var b :| b in tr.elim && LowerBlock(tr.elim[b], tr.m, keys) == Err(e);
    BlockStops(src, tr, keys, b);
  }

  lemma AllKeysThere(src: SourceFunction, tr: Trail, keys: StorageKeys, blocks: map<BlockId, Block>)
    requires TrailOf(src, tr) && tr.m.Keys == RegistersOf(tr.elim, src.parameters) && tr.elim.Keys == src.blocks.Keys
    requires LowersTo(tr.elim, tr.m, keys, blocks)
    ensures KeysCover(src.blocks, keys)
  {
    hide TrailOf, RegistersOf, LowerBlock, KeysCoverBody;
    forall b | b in src.blocks ensures KeysCoverBody(src.blocks[b].body, keys) {
      BlockStops(src, tr, keys, b);
    }
  }

  lemma DenseIsInjective(m: RegisterMap)
    requires Dense(m)
    ensures Injective(m)
  {
  }

  lemma AllParameters(blocks: Ssa.Blocks, parameters: seq<Ssa.Symbol>, m: RegisterMap)
    requires m.Keys == RegistersOf(blocks, parameters)
    ensures forall i :: 0 <= i < |parameters| ==> Ssa.First(parameters[i]) in m
  {
  }

  method ParameterSlots(parameters: seq<Ssa.Symbol>, m: RegisterMap) returns (slots: seq<Slot>)
    requires forall i :: 0 <= i < |parameters| ==> Ssa.First(parameters[i]) in m
    ensures ParametersLowered(parameters, slots, m)
  {
    slots := [];
    for i := 0 to |parameters|
      invariant |slots| == i && forall k :: 0 <= k < i ==> slots[k] == m[Ssa.First(parameters[k])]
    {
      slots := slots + [m[Ssa.First(parameters[i])]];
    }
  }

  // ---------------------------------------------------------------------------
  // What lowering keeps
  // ---------------------------------------------------------------------------

  lemma {:induction false} OperandsListed(os: seq<Ssa.Operand>, m: RegisterMap)
    requires LowerOperands(os, m).Ok?
    ensures SlotsOf(LowerOperands(os, m).value) <= m.Values
    decreases |os|
  {
    if os != [] {
      OperandsListed(os[..|os| - 1], m);
    }
  }

  lemma InstructionListed(inst: Ssa.Instruction, m: RegisterMap, keys: StorageKeys)
    requires LowerInstruction(inst, m, keys).Ok? && LowerInstruction(inst, m, keys).value.Some?
    ensures var lowered := LowerInstruction(inst, m, keys).value.value; Uses(lowered) + Defs(lowered) <= m.Values
  {
    if inst.Call? {
      OperandsListed(inst.args, m);
    }
  }

  lemma {:induction false} BodyListed(body: seq<Ssa.Instruction>, m: RegisterMap, keys: StorageKeys)
    requires LowerBody(body, m, keys).Ok?
    ensures forall i :: 0 <= i < |LowerBody(body, m, keys).value| ==>
              Uses(LowerBody(body, m, keys).value[i]) + Defs(LowerBody(body, m, keys).value[i]) <= m.Values
    decreases |body|
  {
    hide LowerInstruction, Uses, Defs;
    if body != [] {
      BodyListed(body[..|body| - 1], m, keys);
      if LowerInstruction(body[|body| - 1], m, keys).value.Some? {
        InstructionListed(body[|body| - 1], m, keys);
      }
    }
  }

  lemma TerminatorListed(t: Ssa.Terminator, m: RegisterMap)
    requires LowerTerminator(t, m).Ok?
    ensures TerminatorUses(LowerTerminator(t, m).value) <= m.Values
    ensures TerminatorTargets(LowerTerminator(t, m).value) == Ssa.Targets(t)
  {
  }

  lemma BlockLowered(b: Ssa.Block, m: RegisterMap, keys: StorageKeys)
    requires LowerBlock(b, m, keys).Ok?
    ensures var lowered := LowerBlock(b, m, keys).value;
            && LowerBody(b.body, m, keys) == Ok(lowered.instructions)
                && LowerTerminator(b.term, m) == Ok(lowered.terminator)
            && lowered.predecessors == b.predecessors && lowered.successors == b.successors
  {
    hide LowerBody, LowerTerminator;
  }

  lemma BlockOf(src: SourceFunction, tr: Trail, keys: StorageKeys, f: LoweredFunction, b: BlockId)
    requires LoweredAs(src, f, tr, keys) && b in src.blocks
    ensures b in tr.elim && b in f.fn.cfg.blocks && LowerBlock(tr.elim[b], tr.m, keys) == Ok(f.fn.cfg.blocks[b])
    ensures f.fn.cfg.blocks[b].predecessors == src.blocks[b].predecessors
    ensures f.fn.cfg.blocks[b].successors == src.blocks[b].successors
    ensures TerminatorTargets(f.fn.cfg.blocks[b].terminator) == Ssa.Targets(src.blocks[b].term)
  {
    hide TrailOf, ParametersLowered, LowerBlock;
    BlockLowered(tr.elim[b], tr.m, keys);
    TerminatorListed(tr.elim[b].term, tr.m);
  }

  lemma SlotsAreListed(src: SourceFunction, tr: Trail, keys: StorageKeys, f: LoweredFunction, b: BlockId)
    requires LoweredAs(src, f, tr, keys) && b in src.blocks
    ensures b in f.fn.cfg.blocks && SlotsListedAt(f, b)
  {
    BlockOf(src, tr, keys, f, b);
    hide TrailOf, ParametersLowered, LowerBlock, LowerBody, LowerTerminator, LowersTo, SsaConstruction.SameFlow,
        Uses, Defs;
    BlockLowered(tr.elim[b], tr.m, keys);
    BodyListed(tr.elim[b].body, tr.m, keys);
    TerminatorListed(tr.elim[b].term, tr.m);
  }

  lemma SameBlocks(src: SourceFunction, tr: Trail, keys: StorageKeys, f: LoweredFunction)
    requires LoweredAs(src, f, tr, keys)
    ensures f.fn.cfg.blocks.Keys == src.blocks.Keys
  {
    hide TrailOf, ParametersLowered, LowerBlock;
  }

  /** What was linked before is linked after lowering. */
  lemma LoweredFlow(src: SourceFunction, tr: Trail, keys: StorageKeys, f: LoweredFunction)
    requires SourceOk(src) && LoweredAs(src, f, tr, keys)
    ensures WellFormed(f.fn.cfg) && f.fn.cfg.blocks[f.fn.cfg.entry].predecessors == []
  {
    hide TrailOf, ParametersLowered, LoweredAs, TerminatorTargets;
    var cfg := f.fn.cfg;
    EntryIs(src, tr, keys, f);
    SameBlocks(src, tr, keys, f);
    SourceFlow(src);
    forall b | b in src.blocks
      ensures cfg.blocks[b].predecessors == src.blocks[b].predecessors
      ensures cfg.blocks[b].successors == src.blocks[b].successors
      ensures TerminatorTargets(cfg.blocks[b].terminator) == Ssa.Targets(src.blocks[b].term)
    {
      BlockOf(src, tr, keys, f, b);
    }
    hide SourceOk;
    forall b, s | b in cfg.blocks && s in cfg.blocks[b].successors
      ensures s in cfg.blocks && b in cfg.blocks[s].predecessors
    {
      assert s in src.blocks[b].successors;
    }
    forall b, q | b in cfg.blocks && q in cfg.blocks[b].predecessors
      ensures q in cfg.blocks && b in cfg.blocks[q].successors
    {
      assert q in src.blocks[b].predecessors;
    }
    forall b, s | b in cfg.blocks && s in TerminatorTargets(cfg.blocks[b].terminator)
      ensures s in cfg.blocks[b].successors
    {
      assert s in Ssa.Targets(src.blocks[b].term);
    }
    IsWellFormed(cfg);
  }

  lemma EntryIs(src: SourceFunction, tr: Trail, keys: StorageKeys, f: LoweredFunction)
    requires LoweredAs(src, f, tr, keys)
    ensures f.fn.cfg.entry == src.entry
  {
    hide TrailOf, ParametersLowered, LowersTo, SsaConstruction.SameFlow;
  }

  lemma SourceFlow(src: SourceFunction)
    requires SourceOk(src)
    ensures src.entry in src.blocks && src.blocks[src.entry].predecessors == []
    ensures forall b, s {:trigger s in src.blocks[b].successors} ::
              b in src.blocks && s in src.blocks[b].successors ==> s in src.blocks && b in src.blocks[s].predecessors
    ensures forall b, q {:trigger q in src.blocks[b].predecessors} ::
              b in src.blocks && q in src.blocks[b].predecessors ==> q in src.blocks && b in src.blocks[q].successors
    ensures forall b, s {:trigger s in Ssa.Targets(src.blocks[b].term)} ::
              b in src.blocks && s in Ssa.Targets(src.blocks[b].term) ==> s in src.blocks[b].successors
  {
    hide SsaCorrect.Unversioned, Ssa.Targets, Graphs.Reaches;
    var g := Ssa.FlowGraph(src.blocks, src.entry);
    forall b, s {:trigger s in src.blocks[b].successors} | b in src.blocks && s in src.blocks[b].successors
      ensures s in src.blocks && b in src.blocks[s].predecessors
    {
      assert Graphs.Edge(g, b, s);
    }
    forall b, q {:trigger q in src.blocks[b].predecessors} | b in src.blocks && q in src.blocks[b].predecessors
      ensures q in src.blocks && b in src.blocks[q].successors
    {
      assert b in g.pred && q in g.pred[b];
      assert Graphs.Edge(g, q, b);
    }
  }

  /** The lowered function is what the back end takes. */
  lemma LoweredInput(src: SourceFunction, tr: Trail, keys: StorageKeys, f: LoweredFunction)
    requires SourceOk(src) && LoweredAs(src, f, tr, keys)
    ensures InputOk(f)
  {
    hide WellFormed, SlotsListedAt, LoweredBy, SourceOk, LowersTo, SsaConstruction.SameFlow;
    LoweredFlow(src, tr, keys, f);
    SameBlocks(src, tr, keys, f);
    ParametersListed(src, tr, keys, f);
    forall b | b in f.fn.cfg.blocks ensures SlotsListedAt(f, b) {
      SlotsAreListed(src, tr, keys, f, b);
    }
  }

  lemma ParametersListed(src: SourceFunction, tr: Trail, keys: StorageKeys, f: LoweredFunction)
    requires LoweredAs(src, f, tr, keys)
    ensures ToSet(f.fn.parameters) <= f.slots
  {
    hide TrailOf, LowersTo, SsaConstruction.SameFlow;
  }

  // ---------------------------------------------------------------------------
  // All functions
  // ---------------------------------------------------------------------------

  ghost predicate AllLowered(
      sources: seq<SourceFunction>, fs: seq<LoweredFunction>, trails: map<FnId, Trail>, keys: StorageKeys)
  {
    |fs| == |sources| && FirstLowered(sources, fs, trails, keys)
  }

  /** The first functions are lowered, as many as there are in `fs`. */
  ghost predicate FirstLowered(
      sources: seq<SourceFunction>, fs: seq<LoweredFunction>, trails: map<FnId, Trail>, keys: StorageKeys)
  {
    |fs| <= |sources| && forall i :: 0 <= i < |fs| ==> LoweredOne(sources[i], fs[i], trails, keys)
  }

  ghost predicate LoweredOne(src: SourceFunction, f: LoweredFunction, trails: map<FnId, Trail>, keys: StorageKeys) {
    src.id in trails && LoweredAs(src, f, trails[src.id], keys)
  }

  /** The first function that is not lowered, and why. */
  ghost predicate SourceStops(sources: seq<SourceFunction>, keys: StorageKeys, e: CodegenError) {
    exists k :: 0 <= k < |sources| && LoweringStops(sources[k], keys, e)
      && forall i :: 0 <= i < k ==> Lowerable(sources[i], keys)
  }

  method LowerSources(sources: seq<SourceFunction>, keys: StorageKeys)
    returns (r: Result<seq<LoweredFunction>>, ghost trails: map<FnId, Trail>)
    requires SourcesOk(sources)
    ensures r.Ok? <==> forall i :: 0 <= i < |sources| ==> Lowerable(sources[i], keys)
    ensures r.Ok? ==> AllLowered(sources, r.value, trails, keys) && InputsOk(r.value)
    ensures r.Err? ==> SourceStops(sources, keys, r.error)
  {
    hide SourceOk, LoweredAs, InputOk, LoweringStops, Lowerable, LoweredOne;
    var fs := [];
    trails := map[];
    for k := 0 to |sources|
      invariant forall i :: 0 <= i < k ==> Lowerable(sources[i], keys)
      invariant |fs| == k && FirstLowered(sources, fs, trails, keys) && InputsOk(fs)
    {
      var f;
      ghost var tr;
      f, tr := LowerSource(sources[k], keys);
      if f.Err? {
        return Err(f.error), trails;
      }
      LoweredNext(sources, fs, trails, f.value, tr, keys);
      fs, trails := fs + [f.value], trails[sources[k].id := tr];
    }
    r := Ok(fs);
  }

  lemma LoweredNext(
      sources: seq<SourceFunction>, fs: seq<LoweredFunction>, trails: map<FnId, Trail>, f: LoweredFunction, tr: Trail,
      keys: StorageKeys)
    requires SourcesOk(sources) && |fs| < |sources| && FirstLowered(sources, fs, trails, keys) && InputsOk(fs)
    requires LoweredAs(sources[|fs|], f, tr, keys) && InputOk(f)
    ensures FirstLowered(sources, fs + [f], trails[sources[|fs|].id := tr], keys) && InputsOk(fs + [f])
  {
    hide SourcesOk, LoweredAs, InputsOk, InputOk, LoweredOne, FirstLowered;
    var k, src := |fs|, sources[|fs|];
    var fs', trails' := fs + [f], trails[src.id := tr];
    StillLowered(sources, fs, trails, tr, keys);
    AsLowered(src, f, tr, keys);
    IsLowered(src, f, trails', keys);
    MoreInputs(fs, f);
    MoreLowered(sources, fs, trails', f, keys);
  }

  lemma MoreInputs(fs: seq<LoweredFunction>, f: LoweredFunction)
    requires InputsOk(fs) && InputOk(f) && forall i :: 0 <= i < |fs| ==> fs[i].id != f.id
    ensures InputsOk(fs + [f])
  {
    hide InputOk;
  }

  lemma MoreLowered(
      sources: seq<SourceFunction>, fs: seq<LoweredFunction>, trails: map<FnId, Trail>, f: LoweredFunction,
      keys: StorageKeys)
    requires |fs| < |sources| && LoweredOne(sources[|fs|], f, trails, keys)
    requires forall i :: 0 <= i < |fs| ==> LoweredOne(sources[i], fs[i], trails, keys)
    ensures FirstLowered(sources, fs + [f], trails, keys)
  {
    hide LoweredOne;
  }

  /** Functions of other names are lowered as before. */
  lemma StillLowered(
      sources: seq<SourceFunction>, fs: seq<LoweredFunction>, trails: map<FnId, Trail>, tr: Trail, keys: StorageKeys)
    requires SourcesOk(sources) && |fs| < |sources| && FirstLowered(sources, fs, trails, keys)
    ensures forall i :: 0 <= i < |fs| ==>
              && fs[i].id == sources[i].id != sources[|fs|].id
              && LoweredOne(sources[i], fs[i], trails[sources[|fs|].id := tr], keys)
  {
    hide SourceOk, LoweredBy, SsaConstruction.SameFlow;
    forall i | 0 <= i < |fs| ensures fs[i].id == sources[i].id != sources[|fs|].id {
      assert LoweredOne(sources[i], fs[i], trails, keys);
    }
  }

  lemma IsLowered(src: SourceFunction, f: LoweredFunction, trails: map<FnId, Trail>, keys: StorageKeys)
    requires src.id in trails && LoweredAs(src, f, trails[src.id], keys)
    ensures LoweredOne(src, f, trails, keys)
  {
    hide LoweredAs;
  }

  /**
   * From functions as built to bytes. It fails at the first function that is not lowered, or else where
   * code generation stops for one of the lowered and optimised functions.
   */
  method CompileSources(sources: seq<SourceFunction>, keys: StorageKeys, ghost reach: map<FnId, set<FnId>>)
    returns (
      r: Result<seq<Byte>>, ghost fs: seq<LoweredFunction>, ghost trails: map<FnId, Trail>,
      ghost gs: seq<LoweredFunction>,
      ghost img: Image)
    requires SourcesOk(sources)
    ensures r.Ok? ==> AllLowered(sources, fs, trails, keys) && InputsOk(fs) && OptimizedAll(fs, gs)
    ensures r.Ok? ==> Linked(img, gs) && img.reach == reach && r.value == Assembled(img.code, None)
    ensures r.Ok? ==> Faultless(img) && LaidOut(img, gs, [])
    ensures r.Err? ==>
              || SourceStops(sources, keys, r.error)
              || (AllLowered(sources, fs, trails, keys) && OptimizedAll(fs, gs) && SomeStops(gs, r.error))
  {
    hide SourcesOk, AllLowered, InputsOk, OptimizedAll, Linked, Assembled, SourceStops, SomeStops, Lowerable,
        Faultless, LaidOut;
    var lowered;
    lowered, trails := LowerSources(sources, keys);
    if lowered.Err? {
      r, fs, gs, img := Err(lowered.error), [], [], Image(map[], map[], map[], map[], map[], map[], map[], []);
      return;
    }
    fs := lowered.value;
    r, gs, img := CompileContract(lowered.value, reach);
  }

  // ---------------------------------------------------------------------------
  // Runs
  // ---------------------------------------------------------------------------

  /** The program that a list of functions is. */
  function SourcesAsProgram(sources: seq<SourceFunction>): (p: Source.SourceProgram)
    requires forall i, j :: 0 <= i < j < |sources| ==> sources[i].id != sources[j].id
    ensures forall i :: 0 <= i < |sources| ==> sources[i].id in p && p[sources[i].id] == sources[i]
    ensures forall fn :: fn in p ==> exists i :: 0 <= i < |sources| && sources[i].id == fn
  {
    if sources == [] then map[]
    else
      var init, last := sources[..|sources| - 1], sources[|sources| - 1];
      assert forall i :: 0 <= i < |init| ==> init[i] == sources[i];
      SourcesAsProgram(init)[last.id := last]
  }

  /** Functions that are lowered one by one are lowered as a program. */
  lemma LoweredTogether(
      sources: seq<SourceFunction>, fs: seq<LoweredFunction>, trails: map<FnId, Trail>, keys: StorageKeys)
    requires SourcesOk(sources) && AllLowered(sources, fs, trails, keys) && InputsOk(fs) && KeysApart(keys)
    ensures ContractLowered(SourcesAsProgram(sources), ProgramFrom(fs), trails, keys)
  {
    hide SourceOk, InputOk, AllLowered, LoweredBy, KeysApart, ContractLowered;
    var p, q := SourcesAsProgram(sources), ProgramFrom(fs);
    forall fn | fn in p || fn in q ensures LoweredThere(p, q, trails, keys, fn) {
      LoweredUnder(sources, fs, trails, keys, fn);
    }
    LoweredEverywhere(p, q, trails, keys);
  }

  ghost predicate LoweredThere(
      p: Source.SourceProgram, q: Program, trails: map<FnId, Trail>, keys: StorageKeys, fn: FnId)
  {
    fn in p && fn in q && fn in trails && LoweredBy(p[fn], q[fn], trails[fn], keys)
  }

  lemma LoweredEverywhere(p: Source.SourceProgram, q: Program, trails: map<FnId, Trail>, keys: StorageKeys)
    requires KeysApart(keys) && forall fn :: fn in p || fn in q ==> LoweredThere(p, q, trails, keys, fn)
    ensures ContractLowered(p, q, trails, keys)
  {
    hide LoweredBy, KeysApart;
    assert q.Keys == p.Keys by {
      forall fn ensures fn in p <==> fn in q {
        assert fn in p || fn in q ==> LoweredThere(p, q, trails, keys, fn);
      }
    }
    forall fn | fn in p ensures fn in trails && LoweredBy(p[fn], q[fn], trails[fn], keys) {
      assert LoweredThere(p, q, trails, keys, fn);
    }
  }

  lemma LoweredUnder(
      sources: seq<SourceFunction>, fs: seq<LoweredFunction>, trails: map<FnId, Trail>, keys: StorageKeys, fn: FnId)
    requires SourcesOk(sources) && AllLowered(sources, fs, trails, keys) && InputsOk(fs)
    requires fn in SourcesAsProgram(sources) || fn in ProgramFrom(fs)
    ensures LoweredThere(SourcesAsProgram(sources), ProgramFrom(fs), trails, keys, fn)
  {
    hide SourceOk, InputOk, LoweredBy, LoweredOne;
    SameIds(sources, fs, trails, keys);
    var i :| 0 <= i < |sources| && sources[i].id == fn && fs[i].id == fn;
    LoweredAt(sources, fs, trails, keys, i);
    assert ProgramFrom(fs)[fs[i].id] == fs[i].fn;
  }

  lemma SameIds(
      sources: seq<SourceFunction>, fs: seq<LoweredFunction>, trails: map<FnId, Trail>, keys: StorageKeys)
    requires AllLowered(sources, fs, trails, keys)
    ensures |fs| == |sources| && forall i :: 0 <= i < |sources| ==> fs[i].id == sources[i].id
  {
    hide LoweredOne;
    forall i | 0 <= i < |sources| ensures fs[i].id == sources[i].id {
      LoweredAt(sources, fs, trails, keys, i);
    }
  }

  lemma LoweredAt(
      sources: seq<SourceFunction>, fs: seq<LoweredFunction>, trails: map<FnId, Trail>, keys: StorageKeys, i: nat)
    requires AllLowered(sources, fs, trails, keys) && i < |sources|
    ensures |fs| == |sources| && fs[i].id == sources[i].id && sources[i].id in trails
    ensures LoweredBy(sources[i], fs[i].fn, trails[sources[i].id], keys)
  {
    hide LoweredAs, LoweredBy;
    assert LoweredOne(sources[i], fs[i], trails, keys);
    AsLowered(sources[i], fs[i], trails[sources[i].id], keys);
  }

  lemma AsLowered(src: SourceFunction, f: LoweredFunction, tr: Trail, keys: StorageKeys)
    requires LoweredAs(src, f, tr, keys)
    ensures f.id == src.id && LoweredBy(src, f.fn, tr, keys)
  {
    hide LoweredBy, SsaConstruction.SameFlow;
  }

  /** The storage variables, as the words at their keys hold them. */
  function StorageOf(words: map<Word, Word>, keys: StorageKeys): map<Ssa.Symbol, Word> {
    map x | x in keys :: HeldAt(words, keys[x])
  }

  lemma StorageOfMatches(words: map<Word, Word>, keys: StorageKeys)
    ensures StorageMatch(StorageOf(words, keys), words, keys)
  {
  }

  /** What the byte machine has done when the functions as built have come to `c`. */
  ghost predicate BytesMatch(
      bytes: seq<Byte>, c: Source.Run, keys: StorageKeys, cont: Word, base: seq<Word>, m: Machine)
  {
    match c
    case Live(_, storage) => StorageMatch(storage, m.local.storage, keys)
    case Finished(v, storage) =>
      m.pc == cont && m.local.stack == ReturnStack(v) + base && StorageMatch(storage, m.local.storage, keys)
    case Failed => ByteStep(bytes, m) == None
  }

  lemma BytesOfRuns(
      p: Source.SourceProgram, trails: map<FnId, Trail>, c: Source.Run, d: Config, bytes: seq<Byte>, keys: StorageKeys,
      cont: Word, base: seq<Word>, m: Machine)
    requires RunMatch(p, trails, keys, c, d) && ByteMatches(bytes, d, cont, base, m)
    ensures BytesMatch(bytes, c, keys, cont, base, m) && (c.Live? ==> d.Running?)
  {
    hide StorageMatch, ByteStep, ActMatches, WaitsFor;
  }

  /**
   * From source to bytes. Compile functions as they are built and invoke one of
   * them. For every number of steps that the functions as built run, with their own
   * stack of activations, the bytes reach a matching state: on return they are at the
   * continuation with exactly the result on the untouched stack, and every storage
   * variable's key holds its value; where the source fails they have halted; and
   * while it runs, so do they, however long.
   */
  lemma SourceCorrect(
      img: Image, sources: seq<SourceFunction>, fs: seq<LoweredFunction>, trails: map<FnId, Trail>,
      gs: seq<LoweredFunction>,
      keys: StorageKeys, i: nat, args: seq<Word>, cont: Word, exit: nat, base: seq<Word>, m: Machine, n: nat,
      sourceLongest: nat, longest: nat)
    returns (m': Machine, k: nat)
    requires SourcesOk(sources) && AllLowered(sources, fs, trails, keys) && InputsOk(fs) && OptimizedAll(fs, gs)
    requires Linked(img, gs) && Admissible(img, gs) && KeysApart(keys) && i < |sources|
    requires Source.Typed(SourcesAsProgram(sources))
    requires var fn := sources[i].id;
             && fn in img.units && fn in img.calls && fn in img.reach && |args| == |img.units[fn].fn.parameters|
             && Invoked(img, fn, args, cont, base, m)
    requires m.pc <= |img.code| && JumpTarget(img.code, cont) == Some(exit) && |args| == |sources[i].parameters|
    ensures ByteIterate(Assembled(img.code, None), Lower(img.code, m), k) == Some(m')
    ensures var p := SourcesAsProgram(sources);
            var start := Source.Live([Source.Invoke(sources[i], sources[i].id, args)],
                StorageOf(m.local.storage, keys));
            var c := Source.RunSource(p, start, n);
            && BytesMatch(Assembled(img.code, None), c, keys, cont, base, m')
            && (BodiesAtMost(p, sourceLongest) && BlocksAtMost(ProgramFrom(fs), longest) && c.Live? ==>
                  (sourceLongest + 1) * ((longest + 1) * ((k + 1) * (|img.code| + 1))) > n)
  {
    SameSignature(img, fs, gs, i);
    SourceAt(sources, fs, trails, keys, i);
    LoweredTogether(sources, fs, trails, keys);
    StorageOfMatches(m.local.storage, keys);
    hide SourcesOk, SourceOk, AllLowered, LoweredAs, InputOk, OptimizedAll, Linked, Admissible, Invoked,
        ContractLowered;
    hide SourceSteps, Source.RunSource, ByteIterate, Assembled, ByteMatches, BytesMatch, BlocksAtMost, StorageOf,
        RunMatch,
        Source.Typed, BodiesAtMost, ToGo, Source.Invoke, StorageMatch, KeysApart, Bind, SourcesAsProgram, ProgramFrom;
    var p, q, ts, words := SourcesAsProgram(sources), ProgramFrom(fs), trails, m.local.storage;
    var fn := sources[i].id;
    var start := Source.Live([Source.Invoke(sources[i], fn, args)], StorageOf(words, keys));
    var start' := Running([Start(img, fn, args)], words);
    ContractMeaning.StartsMatch(p, q, ts, keys, fn, args, StorageOf(words, keys), words);
    var j := RunsMatch(p, q, ts, keys, start, start', n, sourceLongest);
    m', k := ContractCorrect(img, fs, gs, fn, args, cont, exit, base, m, j, longest);
    var c, d := Source.RunSource(p, start, n), SourceSteps(q, start', j);
    BytesOfRuns(p, ts, c, d, Assembled(img.code, None), keys, cont, base, m');
    if BodiesAtMost(p, sourceLongest) && BlocksAtMost(q, longest) && c.Live? {
      ToGoAtMost(p, start, sourceLongest);
      InFewRounds(sourceLongest, n, j, (longest + 1) * ((k + 1) * (|img.code| + 1)));
    }
  }

  lemma SourceAt(
      sources: seq<SourceFunction>, fs: seq<LoweredFunction>, trails: map<FnId, Trail>, keys: StorageKeys, i: nat)
    requires SourcesOk(sources) && AllLowered(sources, fs, trails, keys) && InputsOk(fs) && i < |sources|
    ensures |fs| == |sources| && fs[i].id == sources[i].id && SourcesAsProgram(sources)[sources[i].id] == sources[i]
    ensures ProgramFrom(fs)[fs[i].id] == fs[i].fn && |fs[i].fn.parameters| == |sources[i].parameters|
  {
    hide SourceOk, InputOk, LoweredBy, LoweredAs, AllLowered;
    LoweredAt(sources, fs, trails, keys, i);
    ParameterCount(sources[i], fs[i].fn, trails[sources[i].id], keys);
  }

  /** The compiled function has the parameters and the entry of the lowered one. */
  lemma SameSignature(img: Image, fs: seq<LoweredFunction>, gs: seq<LoweredFunction>, i: nat)
    requires OptimizedAll(fs, gs) && Linked(img, gs) && i < |fs|
    ensures fs[i].id in img.units && img.units[fs[i].id].fn.parameters == fs[i].fn.parameters
    ensures img.units[fs[i].id].fn.cfg.entry == fs[i].fn.cfg.entry
  {
    UnitsOptimized(fs, gs, i);
    assert OptimizedAt(fs[i], gs[i]);
    hide LinkedAt, UniqueMarks, FramesApart;
  }
}
