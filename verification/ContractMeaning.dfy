/**
 * The front half of the compiler preserves the meaning of whole contracts. The
 * functions as built, run with a stack of activations, and the lowered program,
 * run with its own, stay in step through calls, returns, traps and endless runs.
 */
module ContractMeaning {
  import opened Wrappers
  import opened Sequences
  import opened Words
  import Lowered
  import Low = Semantics
  import opened Ssa
  import opened SsaSemantics
  import opened Frontier
  import opened RenamingSpec
  import opened Renaming
  import opened RenamingWalk
  import opened RenamingMeaning
  import opened PhiElim
  import opened SsaCorrect
  import opened SsaConstruction
  import opened Lowering
  import LM = LoweringMeaning
  import opened SourceRuns
  import opened Registers
  import CallProofs

  // ---------------------------------------------------------------------------
  // One function
  // ---------------------------------------------------------------------------

  /** How a function was lowered: its SSA form, the phi-free code, and the slots of its registers. */
  datatype Trail = Trail(form: SsaForm, elim: Blocks, m: RegisterMap)

  ghost predicate ParametersLowered(parameters: seq<Symbol>, slots: seq<Lowered.Slot>, m: RegisterMap) {
    |slots| == |parameters| && forall i :: 0 <= i < |parameters| ==>
        First(parameters[i]) in m && slots[i] == m[First(parameters[i])]
  }

  /** The SSA form is that of the function, and the phi-free code is what elimination made of it. */
  ghost predicate TrailOf(src: SourceFunction, tr: Trail) {
    && AsBuilt(src.blocks, src.entry, src.parameters)
    && FormOk(tr.form) && Eliminated(tr.form.blocks, tr.elim)
    && tr.form.raw == src.blocks && tr.form.g.entry == src.entry && tr.form.parameters == src.parameters
  }

  ghost predicate LoweredBy(src: SourceFunction, f: Low.Function, tr: Trail, keys: StorageKeys) {
    && TrailOf(src, tr)
    && LowersTo(tr.elim, tr.m, keys, f.cfg.blocks) && Injective(tr.m)
    && f.cfg.entry == src.entry && ParametersLowered(src.parameters, f.parameters, tr.m)
  }

  ghost predicate ContractLowered(
      p: SourceProgram, q: Low.Program, trails: map<FnId, Trail>, keys: StorageKeys)
  {
    && q.Keys == p.Keys && p.Keys <= trails.Keys && LM.KeysApart(keys)
    && forall fn :: fn in p ==> LoweredBy(p[fn], q[fn], trails[fn], keys)
  }

  // ---------------------------------------------------------------------------
  // Places in a block
  // ---------------------------------------------------------------------------

  lemma {:induction false} LowerPrefix(body: seq<Instruction>, m: RegisterMap, keys: StorageKeys, n: nat)
    requires LowerBody(body, m, keys).Ok? && n <= |body|
    ensures LowerBody(body[..n], m, keys).Ok?
    ensures LowerBody(body[..n], m, keys).value <= LowerBody(body, m, keys).value
    decreases |body|
  {
    hide LowerInstruction;
    if n < |body| {
      assert body[..|body| - 1][..n] == body[..n];
      LowerPrefix(body[..|body| - 1], m, keys, n);
    } else {
      assert body[..n] == body;
    }
  }

  lemma {:induction false} LowerAppend(a: seq<Instruction>, b: seq<Instruction>, m: RegisterMap, keys: StorageKeys)
    requires LowerBody(a + b, m, keys).Ok?
    ensures LowerBody(a, m, keys).Ok? && LowerBody(b, m, keys).Ok?
    ensures LowerBody(a + b, m, keys).value == LowerBody(a, m, keys).value + LowerBody(b, m, keys).value
    decreases |b|
  {
    hide LowerInstruction;
    if b == [] {
      assert a + b == a;
    } else {
      var n := |b| - 1;
      assert (a + b)[..|a + b| - 1] == a + b[..n];
      LowerAppend(a, b[..n], m, keys);
      AppendOne(LowerBody(a, m, keys).value, LowerBody(b[..n], m, keys).value, LowerInstruction(b[n], m, keys).value);
    }
  }

  lemma AppendOne(x: seq<Lowered.Instruction>, y: seq<Lowered.Instruction>, last: Option<Lowered.Instruction>)
    ensures last.Some? ==> (x + y) + [last.value] == x + (y + [last.value])
  {
  }

  /** Where the lowered code of instruction n of a block starts. */
  function Place(tr: Trail, keys: StorageKeys, b: BlockId, n: nat): nat
    requires b in tr.elim && n <= |tr.elim[b].body|
  {
    match LowerBody(tr.elim[b].body[..n], tr.m, keys) case Ok(code) => |code| case Err(_) => 0
  }

  /** The versions in front of instruction n of a block. */
  function EnvAt(tr: Trail, b: BlockId, n: nat): Env
    requires b in tr.form.blocks && b in tr.form.envs && n <= |tr.form.blocks[b].body|
  {
    EnvAfterBody(EntryEnv(tr.form, b), tr.form.blocks[b].body[..n])
  }

  /** What is known of a block on its way down. */
  lemma BlockKnown(src: SourceFunction, tr: Trail, b: BlockId)
    requires TrailOf(src, tr) && b in src.blocks
    ensures b in tr.form.blocks && b in tr.form.envs && b in tr.elim && b in tr.form.raw
    ensures |tr.form.blocks[b].body| == |src.blocks[b].body| <= |tr.elim[b].body|
    ensures tr.elim[b].body[..|src.blocks[b].body|] == tr.form.blocks[b].body
    ensures BodyRenamed(src.blocks[b].body, tr.form.blocks[b].body, EntryEnv(tr.form, b))
  {
    hide FormOk, Eliminated, AsBuilt, BodyRenamed, CurrentCopies, Owed, EnvAfterPhis, EnvOut;
    RenamedAt(tr.form, b);
    CopiesAreCurrent(tr.form, tr.elim, b);
    RenamedLength(src.blocks[b].body, tr.form.blocks[b].body, EntryEnv(tr.form, b));
  }

  lemma RenamedLength(body0: seq<Instruction>, body1: seq<Instruction>, env: Env)
    requires BodyRenamed(body0, body1, env)
    ensures |body0| == |body1|
  {
  }

  lemma BlockLowered(src: SourceFunction, f: Low.Function, tr: Trail, keys: StorageKeys, b: BlockId)
    requires LoweredBy(src, f, tr, keys) && b in src.blocks
    ensures b in tr.elim && b in f.cfg.blocks && LowerBody(tr.elim[b].body, tr.m, keys)
        == Ok(f.cfg.blocks[b].instructions)
    ensures LowerTerminator(tr.elim[b].term, tr.m) == Ok(f.cfg.blocks[b].terminator)
  {
    hide TrailOf, LowerBody, LowerTerminator, ParametersLowered, Injective;
    BlockKnown(src, tr, b);
    assert LowerBlock(tr.elim[b], tr.m, keys).Ok?;
  }

  // ---------------------------------------------------------------------------
  // Activations
  // ---------------------------------------------------------------------------

  /** Through some registers of the renamed code, the slots hold what the activation's registers do. */
  ghost predicate ValuesMatch(regs: Regs, slots: Low.Regs, env: Env, m: RegisterMap) {
    exists mid :: Match(regs, mid, env) && LM.RegsMatch(mid, slots, m)
  }

  /** Both stand at the same instruction of the same function with the same values. */
  ghost predicate SameSpot(src: SourceFunction, tr: Trail, keys: StorageKeys, a: Activation, f: Low.Frame) {
    && a.fn == f.fn && a.block == f.block && a.block in src.blocks && a.index <= |src.blocks[a.block].body|
    && a.block in tr.elim && a.index <= |tr.elim[a.block].body| && f.index == Place(tr, keys, a.block, a.index)
    && a.block in tr.form.blocks && a.block in tr.form.envs && a.index <= |tr.form.blocks[a.block].body|
    && ValuesMatch(a.regs, f.regs, EnvAt(tr, a.block, a.index), tr.m)
  }

  ghost predicate ActMatches(
      p: SourceProgram, trails: map<FnId, Trail>, keys: StorageKeys, a: Activation, f: Low.Frame)
  {
    a.fn in p && a.fn in trails && SameSpot(p[a.fn], trails[a.fn], keys, a, f)
  }

  /** The activation waits in a call of `callee`. */
  ghost predicate WaitsFor(p: SourceProgram, a: Activation, callee: FnId) {
    && CallAt(p, a).Some? && CallAt(p, a).value.target == Internal(callee)
    && (CallAt(p, a).value.result.Some? ==> callee in p && p[callee].returnsValue)
  }

  ghost predicate RunMatch(p: SourceProgram, trails: map<FnId, Trail>, keys: StorageKeys, c: Run, d: Low.Config) {
    match c
    case Live(acts, storage) =>
      && d.Running? && |d.frames| == |acts| && acts != [] && LM.StorageMatch(storage, d.storage, keys)
      && (forall i :: 0 <= i < |acts| ==> ActMatches(p, trails, keys, acts[i], d.frames[i]))
      && forall i :: 0 < i < |acts| ==> WaitsFor(p, acts[i], acts[i - 1].fn)
    case Finished(v, storage) => d.Returned? && d.value == v && LM.StorageMatch(storage, d.storage, keys)
    case Failed => d == Low.Trapped
  }

  lemma InBlock(p: SourceProgram, trails: map<FnId, Trail>, keys: StorageKeys, a: Activation, f: Low.Frame)
    requires ActMatches(p, trails, keys, a, f)
    ensures a.fn in p && a.block in p[a.fn].blocks && a.index <= |p[a.fn].blocks[a.block].body|
  {
    hide Place, EnvAt, ValuesMatch;
  }

  lemma CloseValues(regs: Regs, mid: Regs, slots: Low.Regs, env: Env, m: RegisterMap)
    requires Match(regs, mid, env) && LM.RegsMatch(mid, slots, m)
    ensures ValuesMatch(regs, slots, env, m)
  {
  }

  // ---------------------------------------------------------------------------
  // Instructions
  // ---------------------------------------------------------------------------

  /** Instruction n as written, renamed and lowered. */
  lemma InstructionAt(src: SourceFunction, f: Low.Function, tr: Trail, keys: StorageKeys, b: BlockId, n: nat)
    requires LoweredBy(src, f, tr, keys) && b in src.blocks && n < |src.blocks[b].body|
    requires b in tr.form.blocks && b in tr.form.envs && b in tr.elim
    requires |tr.form.blocks[b].body| == |src.blocks[b].body| <= |tr.elim[b].body|
    ensures var inst, inst' := src.blocks[b].body[n], tr.elim[b].body[n];
            && inst' == tr.form.blocks[b].body[n]
            && RenameInstruction(inst, EnvAt(tr, b, n), VersionOf(inst')) == Some(inst') && UnversionedInstruction(inst)
            && EnvAt(tr, b, n + 1) == Bound(EnvAt(tr, b, n), DestRegister(inst'))
            && LowerInstruction(inst', tr.m, keys).Ok? && b in f.cfg.blocks
            && match LowerInstruction(inst', tr.m, keys).value {
                 case Some(lowered) =>
                   && Place(tr, keys, b, n) < |f.cfg.blocks[b].instructions|
                   && f.cfg.blocks[b].instructions[Place(tr, keys, b, n)] == lowered
                   && Place(tr, keys, b, n + 1) == Place(tr, keys, b, n) + 1
                 case None => Place(tr, keys, b, n + 1) == Place(tr, keys, b, n)
               }
  {
    hide TrailOf, LowersTo, ParametersLowered, Injective, RenameInstruction, LowerInstruction;
    BlockKnown(src, tr, b);
    BlockLowered(src, f, tr, keys, b);
    var body, body' := tr.elim[b].body, tr.form.blocks[b].body;
    assert body[n] == body[..|body'|][n];
    RenamedAtIndex(src, tr, b, n);
    assert body'[..n + 1][..n] == body'[..n] && body[..n + 1][..n] == body[..n];
    LowerPrefix(body, tr.m, keys, n + 1);
    LowerPrefix(body[..n + 1], tr.m, keys, n);
  }

  lemma RenamedAtIndex(src: SourceFunction, tr: Trail, b: BlockId, n: nat)
    requires TrailOf(src, tr) && b in src.blocks && n < |src.blocks[b].body|
    requires b in tr.form.blocks && b in tr.form.envs && |tr.form.blocks[b].body| == |src.blocks[b].body|
    ensures var inst' := tr.form.blocks[b].body[n];
            RenameInstruction(src.blocks[b].body[n], EnvAt(tr, b, n), VersionOf(inst')) == Some(inst')
    ensures UnversionedInstruction(src.blocks[b].body[n])
  {
    hide FormOk, Eliminated, JoinsOk, JumpsAlongEdges, RenameInstruction, UnversionedInstruction, Distinct;
    BlockKnown(src, tr, b);
  }

  /** A frame at the place of an instruction with code stands at that code. */
  lemma Stands(
      p: SourceProgram, q: Low.Program, trails: map<FnId, Trail>, keys: StorageKeys, a: Activation, f: Low.Frame)
    requires ContractLowered(p, q, trails, keys) && ActMatches(p, trails, keys, a, f)
    requires a.index < |p[a.fn].blocks[a.block].body|
    ensures var tr := trails[a.fn];
            var inst' := tr.elim[a.block].body[a.index];
            && LowerInstruction(inst', tr.m, keys).Ok?
            && (LowerInstruction(inst', tr.m, keys).value.Some? ==>
                  LM.StandsAt(q, f, LowerInstruction(inst', tr.m, keys).value.value))
  {
    hide LoweredBy, Place, EnvAt, ValuesMatch, TrailOf, Injective, LowersTo, ParametersLowered, LowerInstruction;
    hide RenameInstruction, UnversionedInstruction, BodyRenamed, EntryEnv;
    assert LoweredBy(p[a.fn], q[a.fn], trails[a.fn], keys);
    KnownTrail(p[a.fn], q[a.fn], trails[a.fn], keys);
    BlockKnown(p[a.fn], trails[a.fn], a.block);
    InstructionAt(p[a.fn], q[a.fn], trails[a.fn], keys, a.block, a.index);
  }

  lemma KnownTrail(src: SourceFunction, f: Low.Function, tr: Trail, keys: StorageKeys)
    requires LoweredBy(src, f, tr, keys)
    ensures TrailOf(src, tr) && Injective(tr.m) && f.cfg.entry == src.entry
    ensures ParametersLowered(src.parameters, f.parameters, tr.m) && LowersTo(tr.elim, tr.m, keys, f.cfg.blocks)
  {
    hide TrailOf, Injective, LowersTo, ParametersLowered;
  }

  /** An instruction that is not a call. */
  lemma PlainStep(
      p: SourceProgram, q: Low.Program, trails: map<FnId, Trail>, keys: StorageKeys, a: Activation, f: Low.Frame,
      below: seq<Low.Frame>, storage: Storage, words: map<Word, Word>)
    returns (k: nat, f': Low.Frame, words': map<Word, Word>)
    requires ContractLowered(p, q, trails, keys) && ActMatches(p, trails, keys, a, f)
    requires a.index < |p[a.fn].blocks[a.block].body| && !p[a.fn].blocks[a.block].body[a.index].Call?
    requires LM.StorageMatch(storage, words, keys)
    ensures Low.SourceSteps(q, Low.Running([f] + below, words), k) == Low.Running([f'] + below, words')
    ensures var (regs', storage') := Execute(p[a.fn].blocks[a.block].body[a.index], a.regs, storage, NoCall);
            && ActMatches(p, trails, keys, a.(index := a.index + 1, regs := regs'), f')
            && LM.StorageMatch(storage', words', keys)
  {
    hide LoweredBy, Place, EnvAt, Match, LM.RegsMatch, LM.StorageMatch, Low.SourceSteps, LowerInstruction, Execute,
        LM.StandsAt;
    hide RenameInstruction, UnversionedInstruction, Injective, TrailOf, LM.KeysApart;
    var src, tr, b, n := p[a.fn], trails[a.fn], a.block, a.index;
    Stands(p, q, trails, keys, a, f);
    KnownTrail(src, q[a.fn], tr, keys);
    BlockKnown(src, tr, b);
    InstructionAt(src, q[a.fn], tr, keys, b, n);
    var inst, inst' := src.blocks[b].body[n], tr.elim[b].body[n];
    RenamedKind(inst, inst', EnvAt(tr, b, n));
    var mid :| Match(a.regs, mid, EnvAt(tr, b, n)) && LM.RegsMatch(mid, f.regs, tr.m);
    InstructionMatches(inst, inst', EnvAt(tr, b, n), a.regs, mid, storage, NoCall);
    var slots;
    k, slots, words' := LM.InstructionRuns(q, f, below, inst', tr.m, keys, mid, storage, words, NoCall);
    f' := f.(index := f.index + k, regs := slots);
    var (regs', storage') := Execute(inst, a.regs, storage, NoCall);
    var (mid', _) := Execute(inst', mid, storage, NoCall);
    CloseValues(regs', mid', slots, EnvAt(tr, b, n + 1), tr.m);
  }

  lemma RenamedKind(inst: Instruction, inst': Instruction, env: Env)
    requires RenameInstruction(inst, env, VersionOf(inst')) == Some(inst')
    ensures inst'.Call? == inst.Call?
    ensures inst.Call? ==> inst'.target == inst.target && inst'.result.Some? == inst.result.Some?
    ensures inst.Call? ==> RenameOperands(inst.args, env) == Some(inst'.args)
    ensures inst.Call? && inst.result.Some? ==>
              inst'.result.value == Register(inst.result.value.symbol, VersionOf(inst'))
  {
    hide RenameOperands;
  }

  // ---------------------------------------------------------------------------
  // Calls and returns
  // ---------------------------------------------------------------------------

  /** Arguments bound to the parameters' slots are bound to the parameters, and all other registers read as 0. */
  lemma ArgumentsMatch(parameters: seq<Symbol>, slots: seq<Lowered.Slot>, m: RegisterMap, args: seq<Word>)
    requires |args| == |parameters| && Distinct(parameters) && Injective(m) && ParametersLowered(parameters, slots, m)
    ensures LM.RegsMatch(BoundArguments(parameters, args), Low.Bind(slots, args), m)
  {
    hide Low.Bind, BoundArguments;
    var regs := BoundArguments(parameters, args);
    forall r | r in m ensures Read(regs, r) == Low.Read(Low.Bind(slots, args), m[r]) {
      if i :| 0 <= i < |parameters| && r == First(parameters[i]) {
        BoundRead(parameters, args, i);
        SlotsDistinct(parameters, slots, m);
        CallProofs.BindRead(slots, args, i);
      } else {
        NotParameter(parameters, args, r);
        forall i | 0 <= i < |slots| ensures slots[i] != m[r] {
          assert First(parameters[i]) != r;
        }
        CallProofs.NotBound(slots, args, m[r]);
      }
    }
  }

  lemma {:induction false} BoundRead(parameters: seq<Symbol>, values: seq<Word>, i: nat)
    requires |parameters| == |values| && Distinct(parameters) && i < |parameters|
    ensures First(parameters[i]) in BoundArguments(parameters, values)
    ensures BoundArguments(parameters, values)[First(parameters[i])] == values[i]
    decreases |parameters|
  {
    var n := |parameters| - 1;
    if i < n {
      BoundRead(parameters[..n], values[..n], i);
      assert parameters[i] != parameters[n];
    }
  }

  lemma {:induction false} NotParameter(parameters: seq<Symbol>, values: seq<Word>, r: Register)
    requires |parameters| == |values| && forall i :: 0 <= i < |parameters| ==> r != First(parameters[i])
    ensures r !in BoundArguments(parameters, values)
    decreases |parameters|
  {
    if parameters != [] {
      var n := |parameters| - 1;
      assert forall i :: 0 <= i < n ==> parameters[..n][i] == parameters[i];
      NotParameter(parameters[..n], values[..n], r);
    }
  }

  lemma SlotsDistinct(parameters: seq<Symbol>, slots: seq<Lowered.Slot>, m: RegisterMap)
    requires Distinct(parameters) && Injective(m) && ParametersLowered(parameters, slots, m)
    ensures Distinct(slots)
  {
    forall i, j | 0 <= i < j < |slots| ensures slots[i] != slots[j] {
      assert First(parameters[i]) != First(parameters[j]);
    }
  }

  lemma {:induction false} BoundMatches(parameters: seq<Symbol>, values: seq<Word>)
    requires |parameters| == |values|
    ensures Match(BoundArguments(parameters, values), BoundArguments(parameters, values), ParameterEnv(parameters))
  {
    forall r | r in BoundArguments(parameters, values) ensures r.version == 0 && r.symbol in parameters {
      BoundIsParameter(parameters, values, r);
    }
  }

  lemma {:induction false} BoundIsParameter(parameters: seq<Symbol>, values: seq<Word>, r: Register)
    requires |parameters| == |values| && r in BoundArguments(parameters, values)
    ensures r.version == 0 && r.symbol in parameters
    decreases |parameters|
  {
    if r != First(parameters[|parameters| - 1]) {
      BoundIsParameter(parameters[..|parameters| - 1], values[..|parameters| - 1], r);
    }
  }

  /** A fresh activation matches a fresh frame. */
  lemma FreshMatches(
      p: SourceProgram, q: Low.Program, trails: map<FnId, Trail>, keys: StorageKeys, g: FnId, values: seq<Word>)
    requires ContractLowered(p, q, trails, keys) && g in p && |values| == |p[g].parameters|
    ensures g in q && |q[g].parameters| == |values|
    ensures ActMatches(p, trails, keys, Invoke(p[g], g, values),
        Low.Frame(g, q[g].cfg.entry, 0, Low.Bind(q[g].parameters, values)))
  {
    hide LoweredBy, Low.Bind, BoundArguments, Match, LM.RegsMatch, AsBuilt, FormOk, Eliminated, Injective, LowersTo,
        BodyRenamed;
    var src, tr := p[g], trails[g];
    assert LoweredBy(src, q[g], tr, keys);
    KnownTrail(src, q[g], tr, keys);
    EntryHasNoPhis(tr.form);
    BlockKnown(src, tr, src.entry);
    DistinctParameters(src.blocks, src.entry, src.parameters);
    ArgumentsMatch(src.parameters, q[g].parameters, tr.m, values);
    BoundMatches(src.parameters, values);
    assert tr.form.blocks[src.entry].body[..0] == [] && tr.elim[src.entry].body[..0] == [];
    assert EnvAt(tr, src.entry, 0) == ParameterEnv(src.parameters);
    var regs := BoundArguments(src.parameters, values);
    CloseValues(regs, regs, Low.Bind(q[g].parameters, values), EnvAt(tr, src.entry, 0), tr.m);
  }

  lemma DistinctParameters(blocks: Blocks, entry: BlockId, parameters: seq<Symbol>)
    requires AsBuilt(blocks, entry, parameters)
    ensures Distinct(parameters) && entry in blocks
  {
    BuiltFacts(blocks, entry, parameters);
    hide AsBuilt;
  }

  /** The values of a call's arguments, in all three codes. */
  lemma ArgumentValues(
      args: seq<Operand>, args': seq<Operand>, env: Env, regs: Regs, mid: Regs, slots: Low.Regs, m: RegisterMap)
    requires RenameOperands(args, env) == Some(args') && UnversionedOperands(args)
    requires LowerOperands(args', m).Ok? && Match(regs, mid, env) && LM.RegsMatch(mid, slots, m)
    ensures |LowerOperands(args', m).value| == |args|
    ensures Low.OperandValues(slots, LowerOperands(args', m).value) == Values(regs, args)
  {
    hide Match, LM.RegsMatch;
    OperandsMatch(args, args', regs, mid, env);
    LM.OperandsMatch(args', m, mid, slots);
  }

  /** A call pushes matching activations, or fails and traps. */
  lemma CallStep(
      p: SourceProgram, q: Low.Program, trails: map<FnId, Trail>, keys: StorageKeys, acts: seq<Activation>,
      frames: seq<Low.Frame>, storage: Storage, words: map<Word, Word>)
    requires ContractLowered(p, q, trails, keys) && Typed(p)
        && RunMatch(p, trails, keys, Live(acts, storage), Low.Running(frames, words))
    requires var a := acts[0]; a.index < |p[a.fn].blocks[a.block].body| && p[a.fn].blocks[a.block].body[a.index].Call?
    ensures RunMatch(p, trails, keys, StepSource(p, Live(acts, storage)), Low.SourceStep(q, Low.Running(frames, words)))
  {
    hide LoweredBy, Place, EnvAt, Match, LM.RegsMatch, LM.StorageMatch, SameSpot, Low.Bind, BoundArguments,
        LM.KeysApart, Typed;
    var a, f := acts[0], frames[0];
    assert ActMatches(p, trails, keys, a, f);
    InBlock(p, trails, keys, a, f);
    var inst := p[a.fn].blocks[a.block].body[a.index];
    var lowered := CallLowered(p, q, trails, keys, a, f);
    LoweredCall(q, frames, lowered, words);
    if inst.target.Internal? && inst.target.fn in p {
      var g, values := inst.target.fn, Values(a.regs, inst.args);
      ParameterCount(p[g], q[g], trails[g], keys);
      if |values| == |p[g].parameters| {
        FreshMatches(p, q, trails, keys, g, values);
        TypedCall(p, a);
      }
    }
  }

  lemma ParameterCount(src: SourceFunction, f: Low.Function, tr: Trail, keys: StorageKeys)
    requires LoweredBy(src, f, tr, keys)
    ensures |f.parameters| == |src.parameters|
  {
    hide TrailOf, Injective, LowersTo;
  }

  lemma TypedCall(p: SourceProgram, a: Activation)
    requires Typed(p) && CallAt(p, a).Some? && CallAt(p, a).value.target.Internal? && CallAt(p, a).value.target.fn in p
    ensures WaitsFor(p, a, CallAt(p, a).value.target.fn)
  {
    assert CallTyped(p, p[a.fn].blocks[a.block].body[a.index]);
  }

  /** The lowered call of an activation: same target, same values, and a slot for the result. */
  lemma CallLowered(
      p: SourceProgram, q: Low.Program, trails: map<FnId, Trail>, keys: StorageKeys, a: Activation, f: Low.Frame)
    returns (lowered: Lowered.Instruction)
    requires ContractLowered(p, q, trails, keys) && ActMatches(p, trails, keys, a, f) && CallAt(p, a).Some?
    ensures var inst := CallAt(p, a).value;
            && lowered.Call? && LM.StandsAt(q, f, lowered) && lowered.target == LowerTarget(inst.target)
            && |lowered.args| == |inst.args| && Low.OperandValues(f.regs, lowered.args) == Values(a.regs, inst.args)
            && lowered.result.Some? == inst.result.Some?
  {
    hide LoweredBy, Place, EnvAt, Match, LM.RegsMatch, LM.StandsAt, RenameInstruction, LowerOperands, RenameOperands,
        TrailOf;
    hide Injective, LowersTo, ParametersLowered, Low.OperandValues, Values;
    var src, tr, b, n := p[a.fn], trails[a.fn], a.block, a.index;
    Stands(p, q, trails, keys, a, f);
    KnownTrail(src, q[a.fn], tr, keys);
    BlockKnown(src, tr, b);
    InstructionAt(src, q[a.fn], tr, keys, b, n);
    var inst, inst' := src.blocks[b].body[n], tr.elim[b].body[n];
    RenamedKind(inst, inst', EnvAt(tr, b, n));
    CallHasCode(inst', tr.m, keys);
    lowered := LowerInstruction(inst', tr.m, keys).value.value;
    var mid :| Match(a.regs, mid, EnvAt(tr, b, n)) && LM.RegsMatch(mid, f.regs, tr.m);
    ArgumentValues(inst.args, inst'.args, EnvAt(tr, b, n), a.regs, mid, f.regs, tr.m);
  }

  lemma CallHasCode(inst: Instruction, m: RegisterMap, keys: StorageKeys)
    requires inst.Call? && LowerInstruction(inst, m, keys).Ok?
    ensures LowerInstruction(inst, m, keys).value.Some? && LowerOperands(inst.args, m).Ok?
    ensures var lowered := LowerInstruction(inst, m, keys).value.value;
            && lowered.Call? && lowered.target == LowerTarget(inst.target)
                && lowered.args == LowerOperands(inst.args, m).value
            && lowered.result.Some? == inst.result.Some?
            && (inst.result.Some? ==> inst.result.value in m && lowered.result.value == m[inst.result.value])
  {
    hide LowerOperands;
  }

  lemma LoweredCall(q: Low.Program, frames: seq<Low.Frame>, inst: Lowered.Instruction, words: map<Word, Word>)
    requires frames != [] && LM.StandsAt(q, frames[0], inst) && inst.Call?
    ensures Low.SourceStep(q, Low.Running(frames, words)) ==
            if inst.target.External? || inst.target.fn !in q
                || |inst.args| != |q[inst.target.fn].parameters| then Low.Trapped
            else
              var g := q[inst.target.fn];
              Low.Running([Low.Frame(inst.target.fn, g.cfg.entry, 0, Low.Bind(g.parameters,
                  Low.OperandValues(frames[0].regs, inst.args)))] + frames, words)
  {
    hide Low.Bind, Low.OperandValues;
  }

  /** The caller goes on with the result, in both. */
  lemma ResumeMatches(
      p: SourceProgram, q: Low.Program, trails: map<FnId, Trail>, keys: StorageKeys, a: Activation, f: Low.Frame,
      value: Option<Word>)
    requires ContractLowered(p, q, trails, keys) && ActMatches(p, trails, keys, a, f) && CallAt(p, a).Some?
    requires CallAt(p, a).value.result.Some? ==> value.Some?
    ensures Low.CallAt(q, f).Some?
    ensures ActMatches(p, trails, keys, Resume(a, CallAt(p, a).value, value),
        Low.Resume(f, Low.CallAt(q, f).value, value))
  {
    hide LoweredBy, Place, EnvAt, Match, LM.RegsMatch, RenameInstruction, LowerOperands, RenameOperands, TrailOf;
    hide Injective, LowersTo, ParametersLowered, LowerInstruction, UnversionedOperands;
    var src, tr, b, n := p[a.fn], trails[a.fn], a.block, a.index;
    Stands(p, q, trails, keys, a, f);
    KnownTrail(src, q[a.fn], tr, keys);
    BlockKnown(src, tr, b);
    InstructionAt(src, q[a.fn], tr, keys, b, n);
    var inst, inst' := src.blocks[b].body[n], tr.elim[b].body[n];
    RenamedKind(inst, inst', EnvAt(tr, b, n));
    CallHasCode(inst', tr.m, keys);
    var mid :| Match(a.regs, mid, EnvAt(tr, b, n)) && LM.RegsMatch(mid, f.regs, tr.m);
    if inst.result.Some? {
      var x, v, w := inst.result.value.symbol, VersionOf(inst'), value.value;
      AssignMatches(a.regs, mid, EnvAt(tr, b, n), x, v, w);
      assert inst.result.value == First(x);
      LM.AssignMatches(mid, f.regs, tr.m, inst'.result.value, w);
      CloseValues(a.regs[First(x) := w], mid[Register(x, v) := w], f.regs[tr.m[inst'.result.value] := w],
          EnvAt(tr, b, n + 1), tr.m);
    } else {
      CloseValues(a.regs, mid, f.regs, EnvAt(tr, b, n + 1), tr.m);
    }
  }

  // ---------------------------------------------------------------------------
  // The end of a block
  // ---------------------------------------------------------------------------

  lemma CopiesStand(src: SourceFunction, f: Low.Function, tr: Trail, keys: StorageKeys, b: BlockId)
    requires LoweredBy(src, f, tr, keys) && b in src.blocks && b in tr.elim && b in tr.form.blocks && b in f.cfg.blocks
    requires |tr.form.blocks[b].body| == |src.blocks[b].body| <= |tr.elim[b].body|
    requires tr.elim[b].body[..|src.blocks[b].body|] == tr.form.blocks[b].body
    ensures var n, insts := |src.blocks[b].body|, f.cfg.blocks[b].instructions;
            var copies := LowerBody(CopiesAt(tr.form, tr.elim, b), tr.m, keys);
            && copies.Ok? && Place(tr, keys, b, n) + |copies.value| == |insts|
            && insts[Place(tr, keys, b, n)..] == copies.value
  {
    hide LoweredBy, LowerBody, LowerTerminator, CopiesAt;
    BlockLowered(src, f, tr, keys, b);
    var body := tr.form.blocks[b].body;
    var copies := CopiesAt(tr.form, tr.elim, b);
    Split(tr, b);
    LowerAppend(body, copies, tr.m, keys);
    BehindPrefix(LowerBody(body, tr.m, keys).value, LowerBody(copies, tr.m, keys).value);
  }

  lemma Split(tr: Trail, b: BlockId)
    requires b in tr.elim && b in tr.form.blocks && tr.form.blocks[b].body <= tr.elim[b].body
    ensures tr.elim[b].body == tr.form.blocks[b].body + CopiesAt(tr.form, tr.elim, b)
  {
  }

  lemma BehindPrefix(x: seq<Lowered.Instruction>, y: seq<Lowered.Instruction>)
    ensures (x + y)[|x|..] == y
  {
  }

  lemma NoCallsAmong(copies: seq<Instruction>, out: Env)
    requires CurrentCopies(copies, out)
    ensures forall i :: 0 <= i < |copies| ==> !copies[i].Call?
  {
    forall i | 0 <= i < |copies| ensures !copies[i].Call? {
      assert copies[i] in copies;
    }
  }

  lemma EnvAtEnd(tr: Trail, b: BlockId, n: nat)
    requires b in tr.form.blocks && b in tr.form.envs && n == |tr.form.blocks[b].body|
    ensures EnvAt(tr, b, n) == OutOf(tr.form, b)
  {
    assert tr.form.blocks[b].body[..n] == tr.form.blocks[b].body;
    OutIs(tr.form, b);
  }

  /** At the end of a block the copies that stand for phi nodes are run. */
  lemma CopiesRun(
      p: SourceProgram, q: Low.Program, trails: map<FnId, Trail>, keys: StorageKeys, a: Activation, f: Low.Frame,
      below: seq<Low.Frame>, storage: Storage, words: map<Word, Word>)
    returns (k: nat, f': Low.Frame, words': map<Word, Word>, mid: Regs)
    requires ContractLowered(p, q, trails, keys) && ActMatches(p, trails, keys, a, f)
    requires a.index == |p[a.fn].blocks[a.block].body| && LM.StorageMatch(storage, words, keys)
    ensures Low.SourceSteps(q, Low.Running([f] + below, words), k) == Low.Running([f'] + below, words')
    ensures a.fn in q && a.block in q[a.fn].cfg.blocks
    ensures f' == f.(index := |q[a.fn].cfg.blocks[a.block].instructions|, regs := f'.regs)
    ensures LM.StorageMatch(storage, words', keys) && LM.RegsMatch(mid, f'.regs, trails[a.fn].m)
    ensures var tr := trails[a.fn];
            && TrailOf(p[a.fn], tr) && AtEnd(tr, a.block, a.regs, mid)
  {
    hide LoweredBy, Place, EnvAt, Match, LM.RegsMatch, LM.StorageMatch, Low.SourceSteps, LowerBody, EnvOut, ExecuteAll;
    hide Injective, TrailOf, LM.KeysApart, CopiesAt, CurrentCopies, BodyRenamed, EntryEnv, ParametersLowered, LowersTo;
    var src, tr, b, n := p[a.fn], trails[a.fn], a.block, a.index;
    assert LoweredBy(src, q[a.fn], tr, keys);
    KnownTrail(src, q[a.fn], tr, keys);
    BlockKnown(src, tr, b);
    BlockLowered(src, q[a.fn], tr, keys, b);
    CopiesStand(src, q[a.fn], tr, keys, b);
    CopiesCurrent(src, tr, b);
    EnvAtEnd(tr, b, n);
    var copies := CopiesAt(tr.form, tr.elim, b);
    NoCallsAmong(copies, OutOf(tr.form, b));
    var mid0 :| Match(a.regs, mid0, EnvAt(tr, b, n)) && LM.RegsMatch(mid0, f.regs, tr.m);
    var slots;
    k, slots, words' := LM.BodyRuns(q, f, below, copies, tr.m, keys, mid0, storage, words, NoCall);
    CopiesKeepMatch(copies, OutOf(tr.form, b), a.regs, mid0, storage, NoCall);
    mid := ExecuteAll(copies, mid0, storage, NoCall).0;
    f' := f.(index := f.index + |LowerBody(copies, tr.m, keys).value|, regs := slots);
  }

  lemma CopiesCurrent(src: SourceFunction, tr: Trail, b: BlockId)
    requires TrailOf(src, tr) && b in src.blocks
    ensures b in tr.form.blocks && b in tr.form.envs && b in tr.elim && |tr.form.blocks[b].body| <= |tr.elim[b].body|
    ensures CurrentCopies(CopiesAt(tr.form, tr.elim, b), OutOf(tr.form, b))
  {
    hide FormOk, Eliminated, AsBuilt, CurrentCopies, EnvOut, Owed;
    CopiesAreCurrent(tr.form, tr.elim, b);
  }

  /** Behind the copies, current versions have their values and every copy's destination has its symbol's. */
  ghost predicate AtEnd(tr: Trail, b: BlockId, regs: Regs, mid: Regs) {
    && b in tr.form.blocks && b in tr.form.envs && b in tr.elim && |tr.form.blocks[b].body| <= |tr.elim[b].body|
    && Match(regs, mid, OutOf(tr.form, b)) && CurrentCopies(CopiesAt(tr.form, tr.elim, b), OutOf(tr.form, b))
    && forall c :: c in CopiesAt(tr.form, tr.elim, b) ==> Read(mid, c.dest) == Read(regs, First(c.dest.symbol))
  }

  /** The terminators of a block in all three codes. */
  lemma TerminatorAt(src: SourceFunction, f: Low.Function, tr: Trail, keys: StorageKeys, b: BlockId)
    requires LoweredBy(src, f, tr, keys) && b in src.blocks
    ensures b in tr.elim && b in f.cfg.blocks && b in tr.form.blocks && b in tr.form.envs
    ensures LowerTerminator(tr.elim[b].term, tr.m) == Ok(f.cfg.blocks[b].terminator)
    ensures RenameTerminator(src.blocks[b].term, OutOf(tr.form, b)) == Some(tr.elim[b].term)
    ensures UnversionedOperands(TerminatorOperands(src.blocks[b].term))
  {
    hide TrailOf, LowersTo, Injective, ParametersLowered, LowerTerminator, RenameTerminator, EnvOut,
        UnversionedOperands;
    BlockLowered(src, f, tr, keys, b);
    RenamedTerm(src, tr, b);
  }

  lemma RenamedTerm(src: SourceFunction, tr: Trail, b: BlockId)
    requires TrailOf(src, tr) && b in src.blocks
    ensures b in tr.elim && b in tr.form.blocks && b in tr.form.envs
    ensures RenameTerminator(src.blocks[b].term, OutOf(tr.form, b)) == Some(tr.elim[b].term)
    ensures UnversionedOperands(TerminatorOperands(src.blocks[b].term))
  {
    hide FormOk, Eliminated, JoinsOk, JumpsAlongEdges, Unversioned, RenameTerminator, EnvOut, Distinct,
        UnversionedOperands;
    TermRenamed(tr.form, tr.elim, b);
  }

  /** An operand of the terminator has one value in all three codes. */
  lemma TermValue(o: Operand, o': Operand, env: Env, regs: Regs, mid: Regs, slots: Low.Regs, m: RegisterMap)
    requires RenameOperand(o, env) == Some(o') && (o.Location? ==> o.reg.version == 0)
    requires LowerOperand(o', m).Ok? && Match(regs, mid, env) && LM.RegsMatch(mid, slots, m)
    ensures Low.OperandValue(slots, LowerOperand(o', m).value) == Value(regs, o)
  {
    hide Match, LM.RegsMatch;
    OperandMatches(o, o', regs, mid, env);
    LM.OperandMatches(o', m, mid, slots);
  }

  /** Behind the copies, the lowered terminator decides as the one built. */
  ghost predicate TermsAgree(t: Terminator, t': Lowered.Terminator, regs: Regs, slots: Low.Regs) {
    match t
    case Jump(target) => t' == Lowered.Jump(target)
    case Branch(condition, thenBlock, elseBlock) =>
      t'.Branch? && t'.thenBlock == thenBlock && t'.elseBlock == elseBlock
      && Low.OperandValue(slots, t'.condition) == Value(regs, condition)
    case Return(Some(o)) => t'.Return? && t'.value.Some? && Low.OperandValue(slots, t'.value.value) == Value(regs, o)
    case Return(None) => t' == Lowered.Return(None)
    case Unreachable => t' == Lowered.Unreachable
  }

  lemma TermsMatch(
      src: SourceFunction, f: Low.Function, tr: Trail, keys: StorageKeys, b: BlockId, regs: Regs, mid: Regs,
      slots: Low.Regs)
    requires LoweredBy(src, f, tr, keys) && b in src.blocks && AtEnd(tr, b, regs, mid)
    requires LM.RegsMatch(mid, slots, tr.m)
    ensures b in f.cfg.blocks && TermsAgree(src.blocks[b].term, f.cfg.blocks[b].terminator, regs, slots)
  {
    hide LoweredBy, Match, LM.RegsMatch, EnvOut, CopiesAt, Value, Low.OperandValue, LowerOperand, RenameOperand;
    TerminatorAt(src, f, tr, keys, b);
    var t, out := src.blocks[b].term, OutOf(tr.form, b);
    match t
    case Branch(o, _, _) =>
      assert TerminatorOperands(t)[0] == o;
      TermValue(o, RenameOperand(o, out).value, out, regs, mid, slots, tr.m);
    case Return(Some(o)) =>
      assert TerminatorOperands(t)[0] == o;
      TermValue(o, RenameOperand(o, out).value, out, regs, mid, slots, tr.m);
    case _ =>
  }

  /** After a jump both stand at the start of the target, with matching values. */
  lemma JumpMatches(
      p: SourceProgram, trails: map<FnId, Trail>, keys: StorageKeys, a: Activation, f: Low.Frame, mid: Regs, c: BlockId)
    requires a.fn in p && a.fn in trails && f.fn == a.fn && TrailOf(p[a.fn], trails[a.fn]) && a.block in p[a.fn].blocks
    requires AtEnd(trails[a.fn], a.block, a.regs, mid) && LM.RegsMatch(mid, f.regs, trails[a.fn].m)
    requires c in Targets(p[a.fn].blocks[a.block].term)
    ensures ActMatches(p, trails, keys, a.(block := c, index := 0), f.(block := c, index := 0))
  {
    hide Match, LM.RegsMatch, EnvOut, CopiesAt, FormOk, Eliminated, Unversioned, JumpsAlongEdges, Distinct, Arrived,
        LowerBody;
    hide BodyRenamed, EntryEnv, JoinsOk, Targets, Read;
    var src, tr := p[a.fn], trails[a.fn];
    TargetIsEdge(tr.form, a.block, c);
    EdgeKnown(tr.form, a.block, c);
    CopiesArrive(tr.form, tr.elim, a.block, c, a.regs, mid);
    ArrivedMatches(tr.form, c, a.regs, mid);
    BlockKnown(src, tr, c);
    StartOfBlock(tr, keys, c);
    CloseValues(a.regs, mid, f.regs, EnvAt(tr, c, 0), tr.m);
  }

  lemma StartOfBlock(tr: Trail, keys: StorageKeys, b: BlockId)
    requires b in tr.form.blocks && b in tr.form.envs && b in tr.elim
    ensures Place(tr, keys, b, 0) == 0 && EnvAt(tr, b, 0) == EntryEnv(tr.form, b)
  {
    assert tr.form.blocks[b].body[..0] == [] && tr.elim[b].body[..0] == [];
  }

  /** The rest of the activations, when the innermost one changes. */
  lemma InnermostChanges(
      p: SourceProgram, trails: map<FnId, Trail>, keys: StorageKeys, acts: seq<Activation>, frames: seq<Low.Frame>,
      storage: Storage, words: map<Word, Word>, a: Activation, f: Low.Frame, storage': Storage, words': map<Word, Word>)
    requires RunMatch(p, trails, keys, Live(acts, storage), Low.Running(frames, words))
    requires ActMatches(p, trails, keys, a, f) && a.fn == acts[0].fn && LM.StorageMatch(storage', words', keys)
    ensures RunMatch(p, trails, keys, Live([a] + acts[1..], storage'), Low.Running([f] + frames[1..], words'))
  {
    hide ActMatches, WaitsFor, LM.StorageMatch;
  }

  /** A return: the program is over, or the caller goes on. */
  lemma ReturnMatches(
      p: SourceProgram, q: Low.Program, trails: map<FnId, Trail>, keys: StorageKeys, acts: seq<Activation>,
      frames: seq<Low.Frame>, storage: Storage, words: map<Word, Word>, value: Option<Word>)
    requires ContractLowered(p, q, trails, keys) && |acts| > 1
    requires RunMatch(p, trails, keys, Live(acts, storage), Low.Running(frames, words))
    requires acts[0].fn in p && value.Some? == p[acts[0].fn].returnsValue
    ensures CallAt(p, acts[1]).Some? && Low.CallAt(q, frames[1]).Some?
    ensures RunMatch(p, trails, keys, Live([Resume(acts[1], CallAt(p, acts[1]).value, value)] + acts[2..], storage),
                     Low.Running([Low.Resume(frames[1], Low.CallAt(q, frames[1]).value, value)] + frames[2..], words))
  {
    hide ContractLowered, ActMatches, LM.StorageMatch, CallAt, Low.CallAt;
    assert WaitsFor(p, acts[1], acts[0].fn);
    ResumeMatches(p, q, trails, keys, acts[1], frames[1], value);
    var a, f := Resume(acts[1], CallAt(p, acts[1]).value, value),
        Low.Resume(frames[1], Low.CallAt(q, frames[1]).value, value);
    hide Resume, Low.Resume;
    assert RunMatch(p, trails, keys, Live(acts[1..], storage), Low.Running(frames[1..], words)) by { hide WaitsFor; }
    assert acts[1..][0] == acts[1] && acts[1..][1..] == acts[2..] && frames[1..][1..] == frames[2..];
    assert a.fn == acts[1].fn by { ResumeStays(acts[1], CallAt(p, acts[1]).value, value); }
    InnermostChanges(p, trails, keys, acts[1..], frames[1..], storage, words, a, f, storage, words);
  }

  lemma ResumeStays(a: Activation, call: Instruction, value: Option<Word>)
    requires call.Call?
    ensures Resume(a, call, value).fn == a.fn
  {
  }

  lemma LoweredTerminator(q: Low.Program, f: Low.Frame, below: seq<Low.Frame>, words: map<Word, Word>)
    requires f.fn in q && f.block in q[f.fn].cfg.blocks && f.index == |q[f.fn].cfg.blocks[f.block].instructions|
    ensures Low.SourceStep(q, Low.Running([f] + below, words)) ==
            Low.StepTerminator(q, q[f.fn].cfg.blocks[f.block].terminator, [f] + below, words)
  {
    hide Low.StepTerminator, Low.StepInstruction;
  }

  /** Deciding alike, both runs take the same turn. */
  lemma TurnMatches(
      p: SourceProgram, q: Low.Program, trails: map<FnId, Trail>, keys: StorageKeys, acts: seq<Activation>,
      frames: seq<Low.Frame>, storage: Storage, words: map<Word, Word>, f: Low.Frame, words': map<Word, Word>,
      mid: Regs,
      t': Lowered.Terminator)
    requires ContractLowered(p, q, trails, keys) && Typed(p)
    requires RunMatch(p, trails, keys, Live(acts, storage), Low.Running(frames, words))
    requires var a := acts[0];
             && a.fn in p && a.fn in trails && a.block in p[a.fn].blocks && f.fn == a.fn
                 && LM.StorageMatch(storage, words', keys)
             && TrailOf(p[a.fn], trails[a.fn]) && AtEnd(trails[a.fn], a.block, a.regs, mid)
             && LM.RegsMatch(mid, f.regs, trails[a.fn].m)
             && TermsAgree(p[a.fn].blocks[a.block].term, t', a.regs, f.regs)
    ensures RunMatch(p, trails, keys, StepTerminator(p, p[acts[0].fn].blocks[acts[0].block].term, acts, storage),
                     Low.StepTerminator(q, t', [f] + frames[1..], words'))
  {
    hide ContractLowered, TrailOf, AtEnd, LM.RegsMatch, LM.StorageMatch, Value, Low.OperandValue, RunMatch, Low.Resume,
        Resume;
    hide CallAt, Low.CallAt, ActMatches;
    SameDepth(p, trails, keys, acts, frames, storage, words);
    var a := acts[0];
    var t := p[a.fn].blocks[a.block].term;
    assert ([f] + frames[1..])[0] == f && ([f] + frames[1..])[1..] == frames[1..];
    match t
    case Jump(target) =>
      JumpMatches(p, trails, keys, a, f, mid, target);
      InnermostChanges(p, trails, keys, acts, frames, storage, words, a.(block := target, index := 0),
        f.(block := target, index := 0), storage, words');
    case Branch(condition, thenBlock, elseBlock) =>
      var target := if Value(a.regs, condition) != 0 then thenBlock else elseBlock;
      JumpMatches(p, trails, keys, a, f, mid, target);
      InnermostChanges(p, trails, keys, acts, frames, storage, words, a.(block := target, index := 0),
        f.(block := target, index := 0), storage, words');
    case Return(v) =>
      var value := match v case Some(o) => Some(Value(a.regs, o)) case None => None;
      if |acts| == 1 {
        OverMatches(p, trails, keys, value, storage, words');
      } else {
        ReturnTyped(p, a);
        NewStorage(p, trails, keys, acts, frames, storage, words, words');
        ReturnMatches(p, q, trails, keys, acts, frames, storage, words', value);
        SameBelow(f, frames);
      }
    case Unreachable => TrapMatches(p, trails, keys);
  }

  lemma SameBelow<T>(first: T, s: seq<T>)
    requires |s| > 1
    ensures ([first] + s[1..])[1] == s[1] && ([first] + s[1..])[2..] == s[2..]
  {
  }

  lemma NewStorage(
      p: SourceProgram, trails: map<FnId, Trail>, keys: StorageKeys, acts: seq<Activation>, frames: seq<Low.Frame>,
      storage: Storage, words: map<Word, Word>, words': map<Word, Word>)
    requires RunMatch(p, trails, keys, Live(acts, storage), Low.Running(frames, words))
    requires LM.StorageMatch(storage, words', keys)
    ensures RunMatch(p, trails, keys, Live(acts, storage), Low.Running(frames, words'))
  {
    hide ActMatches, WaitsFor, LM.StorageMatch;
  }

  lemma SameDepth(
      p: SourceProgram, trails: map<FnId, Trail>, keys: StorageKeys, acts: seq<Activation>, frames: seq<Low.Frame>,
      storage: Storage, words: map<Word, Word>)
    requires RunMatch(p, trails, keys, Live(acts, storage), Low.Running(frames, words))
    ensures |frames| == |acts| > 0 && ActMatches(p, trails, keys, acts[0], frames[0])
    ensures LM.StorageMatch(storage, words, keys)
  {
    hide ActMatches, WaitsFor, LM.StorageMatch;
  }

  lemma OverMatches(
      p: SourceProgram, trails: map<FnId, Trail>, keys: StorageKeys, v: Option<Word>, storage: Storage,
      words: map<Word, Word>)
    requires LM.StorageMatch(storage, words, keys)
    ensures RunMatch(p, trails, keys, Finished(v, storage), Low.Returned(v, words))
  {
  }

  lemma TrapMatches(p: SourceProgram, trails: map<FnId, Trail>, keys: StorageKeys)
    ensures RunMatch(p, trails, keys, Failed, Low.Trapped)
  {
  }

  lemma ReturnTyped(p: SourceProgram, a: Activation)
    requires Typed(p) && a.fn in p && a.block in p[a.fn].blocks && p[a.fn].blocks[a.block].term.Return?
    ensures p[a.fn].blocks[a.block].term.value.Some? == p[a.fn].returnsValue
  {
    assert ReturnsTyped(p[a.fn], p[a.fn].blocks[a.block].term);
  }

  lemma EndStep(
      p: SourceProgram, q: Low.Program, trails: map<FnId, Trail>, keys: StorageKeys, acts: seq<Activation>,
      frames: seq<Low.Frame>, storage: Storage, words: map<Word, Word>)
    returns (k: nat)
    requires ContractLowered(p, q, trails, keys) && Typed(p)
    requires RunMatch(p, trails, keys, Live(acts, storage), Low.Running(frames, words))
    requires var a := acts[0]; a.fn in p && a.block in p[a.fn].blocks && a.index == |p[a.fn].blocks[a.block].body|
    ensures k > 0
    ensures RunMatch(p, trails, keys, StepSource(p, Live(acts, storage)),
                     Low.SourceSteps(q, Low.Running(frames, words), k))
  {
    hide ContractLowered, TrailOf, AtEnd, LM.RegsMatch, LM.StorageMatch, RunMatch, Low.SourceSteps, StepTerminator,
        TermsAgree,
        StepInstruction, ActMatches, Low.SourceStep, Low.StepTerminator, LoweredBy;
    SameDepth(p, trails, keys, acts, frames, storage, words);
    var a, f := acts[0], frames[0];
    var j, f', words', mid := CopiesRun(p, q, trails, keys, a, f, frames[1..], storage, words);
    assert frames == [f] + frames[1..];
    LoweredOf(p, q, trails, keys, a.fn);
    TermsMatch(p[a.fn], q[a.fn], trails[a.fn], keys, a.block, a.regs, mid, f'.regs);
    SameSpotAt(p, trails, keys, a, f);
    LoweredTerminator(q, f', frames[1..], words');
    var t' := q[a.fn].cfg.blocks[a.block].terminator;
    TurnMatches(p, q, trails, keys, acts, frames, storage, words, f', words', mid, t');
    k := j + 1;
    LM.StepsAdd(q, Low.Running(frames, words), j, 1);
    LM.OneStep(q, Low.Running([f'] + frames[1..], words'));
  }

  lemma SameSpotAt(p: SourceProgram, trails: map<FnId, Trail>, keys: StorageKeys, a: Activation, f: Low.Frame)
    requires ActMatches(p, trails, keys, a, f)
    ensures a.fn == f.fn && a.block == f.block && a.fn in trails
  {
    hide Place, EnvAt, ValuesMatch;
  }

  lemma LoweredOf(p: SourceProgram, q: Low.Program, trails: map<FnId, Trail>, keys: StorageKeys, fn: FnId)
    requires ContractLowered(p, q, trails, keys) && fn in p
    ensures fn in q && fn in trails && LoweredBy(p[fn], q[fn], trails[fn], keys)
  {
    hide LoweredBy;
  }

  // ---------------------------------------------------------------------------
  // Runs
  // ---------------------------------------------------------------------------

  /** How many instructions the innermost activation still has to run in its block. */
  function ToGo(p: SourceProgram, c: Run): nat {
    if c.Live? && c.acts != [] && c.acts[0].fn in p && c.acts[0].block in p[c.acts[0].fn].blocks then
      var n := |p[c.acts[0].fn].blocks[c.acts[0].block].body|;
      if c.acts[0].index < n then n - c.acts[0].index else 0
    else 0
  }

  ghost predicate BodiesAtMost(p: SourceProgram, longest: nat) {
    forall fn, b :: fn in p && b in p[fn].blocks ==> |p[fn].blocks[b].body| <= longest
  }

  lemma ToGoAtMost(p: SourceProgram, c: Run, longest: nat)
    requires BodiesAtMost(p, longest)
    ensures ToGo(p, c) <= longest
  {
  }

  /** A step of the functions as built is one or more of the lowered program, or none if its instruction has no code. */
  lemma StepMatches(
      p: SourceProgram, q: Low.Program, trails: map<FnId, Trail>, keys: StorageKeys, c: Run, d: Low.Config)
    returns (k: nat)
    requires ContractLowered(p, q, trails, keys) && Typed(p) && RunMatch(p, trails, keys, c, d) && c.Live?
    ensures RunMatch(p, trails, keys, StepSource(p, c), Low.SourceSteps(q, d, k))
    ensures k == 0 ==> ToGo(p, c) == ToGo(p, StepSource(p, c)) + 1
  {
    hide ContractLowered, LM.StorageMatch, RunMatch, Low.SourceSteps, StepTerminator, ActMatches, Low.SourceStep, Typed,
        Execute;
    assert d.Running? by { LiveIsRunning(p, trails, keys, c, d); }
    var acts, frames, storage, words := c.acts, d.frames, c.storage, d.storage;
    SameDepth(p, trails, keys, acts, frames, storage, words);
    var a, f := acts[0], frames[0];
    InBlock(p, trails, keys, a, f);
    var body := p[a.fn].blocks[a.block].body;
    if a.index == |body| {
      k := EndStep(p, q, trails, keys, acts, frames, storage, words);
    } else if body[a.index].Call? {
      CallStep(p, q, trails, keys, acts, frames, storage, words);
      k := 1;
      LM.OneStep(q, d);
    } else {
      var f', words';
      k, f', words' := PlainStep(p, q, trails, keys, a, f, frames[1..], storage, words);
      assert frames == [f] + frames[1..];
      var (regs', storage') := Execute(body[a.index], a.regs, storage, NoCall);
      InnermostChanges(p, trails, keys, acts, frames, storage, words, a.(index := a.index + 1, regs := regs'), f',
        storage', words');
    }
  }

  lemma LiveIsRunning(p: SourceProgram, trails: map<FnId, Trail>, keys: StorageKeys, c: Run, d: Low.Config)
    requires RunMatch(p, trails, keys, c, d)
    ensures c.Live? == d.Running?
  {
    hide ActMatches, WaitsFor, LM.StorageMatch;
  }

  /**
   * The lowered program is where the functions as built are, after any number of steps, and
   * makes progress with them.
   */
  lemma {:induction false} RunsMatch(
      p: SourceProgram, q: Low.Program, trails: map<FnId, Trail>, keys: StorageKeys, c: Run, d: Low.Config, n: nat,
      longest: nat)
    returns (k: nat)
    requires ContractLowered(p, q, trails, keys) && Typed(p) && RunMatch(p, trails, keys, c, d)
    ensures RunMatch(p, trails, keys, RunSource(p, c, n), Low.SourceSteps(q, d, k))
    ensures BodiesAtMost(p, longest) && RunSource(p, c, n).Live? ==>
              n + ToGo(p, RunSource(p, c, n)) <= (longest + 1) * k + ToGo(p, c)
    decreases n
  {
    hide ContractLowered, RunMatch, Low.SourceSteps, StepSource, Typed, ToGo, BodiesAtMost;
    if n == 0 || !c.Live? {
      k := 0;
      NoSteps(q, d);
    } else {
      var c1 := StepSource(p, c);
      var k1 := StepMatches(p, q, trails, keys, c, d);
      var k2 := RunsMatch(p, q, trails, keys, c1, Low.SourceSteps(q, d, k1), n - 1, longest);
      k := k1 + k2;
      LM.StepsAdd(q, d, k1, k2);
      if BodiesAtMost(p, longest) {
        ToGoAtMost(p, c1, longest);
        Progress(longest, k1, k2);
      }
    }
  }

  lemma NoSteps(q: Low.Program, d: Low.Config)
    ensures Low.SourceSteps(q, d, 0) == d
  {
  }

  lemma Progress(longest: nat, k1: nat, k2: nat)
    ensures (longest + 1) * (k1 + k2) == (longest + 1) * k1 + (longest + 1) * k2
    ensures k1 > 0 ==> (longest + 1) * k1 >= longest + 1
    ensures k1 == 0 ==> (longest + 1) * k1 == 0
  {
    assert k1 > 0 ==> (longest + 1) * k1 == (longest + 1) + (longest + 1) * (k1 - 1);
  }

  /** An invoked function and its lowered form start alike. */
  lemma StartsMatch(
      p: SourceProgram, q: Low.Program, trails: map<FnId, Trail>, keys: StorageKeys, fn: FnId, values: seq<Word>,
      storage: Storage, words: map<Word, Word>)
    requires ContractLowered(p, q, trails, keys) && fn in p && |values| == |p[fn].parameters|
    requires LM.StorageMatch(storage, words, keys)
    ensures fn in q && |q[fn].parameters| == |values|
    ensures RunMatch(p, trails, keys, Live([Invoke(p[fn], fn, values)], storage),
                     Low.Running([Low.Frame(fn, q[fn].cfg.entry, 0, Low.Bind(q[fn].parameters, values))], words))
  {
    hide ContractLowered, ActMatches, LM.StorageMatch, Low.Bind;
    FreshMatches(p, q, trails, keys, fn, values);
  }
}
