/**
 * Lowering preserves meaning, instruction by instruction: phi-free SSA code computes
 * the same with registers in their slots and storage variables at their keys.
 */
module LoweringMeaning {
  import opened Wrappers
  import opened Words
  import Lowered
  import opened Semantics
  import Ssa
  import Source = SsaSemantics
  import opened Lowering

  // ---------------------------------------------------------------------------
  // Values
  // ---------------------------------------------------------------------------

  ghost predicate RegsMatch(regs: Source.Regs, slots: Regs, m: RegisterMap) {
    forall r :: r in m ==> Source.Read(regs, r) == Read(slots, m[r])
  }

  function Held(storage: Source.Storage, x: Ssa.Symbol): Word {
    if x in storage then storage[x] else 0
  }

  function HeldAt(storage: map<Word, Word>, key: Word): Word {
    if key in storage then storage[key] else 0
  }

  ghost predicate StorageMatch(storage: Source.Storage, words: map<Word, Word>, keys: StorageKeys) {
    forall x :: x in keys ==> Held(storage, x) == HeldAt(words, keys[x])
  }

  ghost predicate KeysApart(keys: StorageKeys) {
    forall x, y :: x in keys && y in keys && keys[x] == keys[y] ==> x == y
  }

  lemma OperandMatches(o: Ssa.Operand, m: RegisterMap, regs: Source.Regs, slots: Regs)
    requires LowerOperand(o, m).Ok? && RegsMatch(regs, slots, m)
    ensures Source.Value(regs, o) == OperandValue(slots, LowerOperand(o, m).value)
  {
  }

  lemma {:induction false} OperandsMatch(os: seq<Ssa.Operand>, m: RegisterMap, regs: Source.Regs, slots: Regs)
    requires LowerOperands(os, m).Ok? && RegsMatch(regs, slots, m)
    ensures |LowerOperands(os, m).value| == |os|
    ensures Source.Values(regs, os) == OperandValues(slots, LowerOperands(os, m).value)
    decreases |os|
  {
    hide RegsMatch, LowerOperand;
    if os != [] {
      var n := |os| - 1;
      OperandsMatch(os[..n], m, regs, slots);
      OperandMatches(os[n], m, regs, slots);
      var values, init := Source.Values(regs, os), LowerOperands(os[..n], m).value;
      forall i | 0 <= i < |os| ensures values[i] == OperandValue(slots, LowerOperands(os, m).value[i]) {
        if i < n {
          assert Source.Values(regs, os[..n])[i] == OperandValues(slots, init)[i];
        }
      }
    }
  }

  lemma AssignMatches(regs: Source.Regs, slots: Regs, m: RegisterMap, r: Ssa.Register, w: Word)
    requires RegsMatch(regs, slots, m) && Injective(m) && r in m
    ensures RegsMatch(regs[r := w], slots[m[r] := w], m)
  {
  }

  lemma StoreMatches(storage: Source.Storage, words: map<Word, Word>, keys: StorageKeys, x: Ssa.Symbol, w: Word)
    requires StorageMatch(storage, words, keys) && KeysApart(keys) && x in keys
    ensures StorageMatch(storage[x := w], words[keys[x] := w], keys)
  {
  }

  // ---------------------------------------------------------------------------
  // Instructions
  // ---------------------------------------------------------------------------

  /** An instruction that is not a call computes the same in slots. */
  lemma PlainMatches(
      inst: Ssa.Instruction, m: RegisterMap, keys: StorageKeys, regs: Source.Regs, slots: Regs,
      storage: Source.Storage, words: map<Word, Word>, call: Source.Oracle)
    requires LowerInstruction(inst, m, keys).Ok? && LowerInstruction(inst, m, keys).value.Some? && !inst.Call?
    requires Injective(m) && KeysApart(keys) && RegsMatch(regs, slots, m) && StorageMatch(storage, words, keys)
    ensures var lowered := LowerInstruction(inst, m, keys).value.value;
            var (regs', storage') := Source.Execute(inst, regs, storage, call);
            && !lowered.Call? && RegsMatch(regs', ExecuteRegs(lowered, slots, words), m)
            && StorageMatch(storage', ExecuteStorage(lowered, slots, words), keys)
  {
    hide RegsMatch, StorageMatch, Injective, KeysApart, LowerOperand, BinaryValue, UnaryValue, ConstantWord;
    match inst
    case Copy(dest, source) =>
      OperandMatches(source, m, regs, slots);
      AssignMatches(regs, slots, m, dest, Source.Value(regs, source));
    case BinaryOp(dest, op, left, right) =>
      OperandMatches(left, m, regs, slots);
      OperandMatches(right, m, regs, slots);
      AssignMatches(regs, slots, m, dest, BinaryValue(op, Source.Value(regs, left), Source.Value(regs, right)));
    case UnaryOp(dest, uop, operand) =>
      OperandMatches(operand, m, regs, slots);
      AssignMatches(regs, slots, m, dest, UnaryValue(uop, Source.Value(regs, operand)));
    case StorageLoad(dest, x) =>
      HeldMatches(storage, words, keys, x);
      AssignMatches(regs, slots, m, dest, Held(storage, x));
    case StorageStore(x, value) =>
      OperandMatches(value, m, regs, slots);
      StoreMatches(storage, words, keys, x, Source.Value(regs, value));
  }

  lemma HeldMatches(storage: Source.Storage, words: map<Word, Word>, keys: StorageKeys, x: Ssa.Symbol)
    requires StorageMatch(storage, words, keys) && x in keys
    ensures Held(storage, x) == HeldAt(words, keys[x])
  {
  }

  /** What only verification needs does nothing. */
  lemma DroppedDoesNothing(
      inst: Ssa.Instruction, m: RegisterMap, keys: StorageKeys, regs: Source.Regs, storage: Source.Storage,
      call: Source.Oracle)
    requires LowerInstruction(inst, m, keys) == Ok(None)
    ensures Source.Execute(inst, regs, storage, call) == (regs, storage)
  {
    hide LowerOperand, LowerOperands;
  }

  // ---------------------------------------------------------------------------
  // Steps
  // ---------------------------------------------------------------------------

  lemma {:induction false} StepsAdd(p: Program, c: Config, a: nat, b: nat)
    ensures SourceSteps(p, c, a + b) == SourceSteps(p, SourceSteps(p, c, a), b)
    decreases a
  {
    hide SourceStep;
    if a > 0 && c.Running? {
      StepsAdd(p, SourceStep(p, c), a - 1, b);
    }
  }

  lemma OneStep(p: Program, c: Config)
    requires c.Running?
    ensures SourceSteps(p, c, 1) == SourceStep(p, c)
  {
    hide SourceStep;
    assert SourceSteps(p, SourceStep(p, c), 0) == SourceStep(p, c);
  }

  /** Control stands at instruction `index` of a block. */
  ghost predicate StandsAt(p: Program, f: Frame, inst: Lowered.Instruction) {
    && f.fn in p && f.block in p[f.fn].cfg.blocks
    && f.index < |p[f.fn].cfg.blocks[f.block].instructions|
    && p[f.fn].cfg.blocks[f.block].instructions[f.index] == inst
  }

  lemma PlainSteps(p: Program, f: Frame, below: seq<Frame>, inst: Lowered.Instruction, words: map<Word, Word>)
    requires StandsAt(p, f, inst) && !inst.Call?
    ensures SourceStep(p, Running([f] + below, words)) ==
            Running([f.(index := f.index + 1, regs := ExecuteRegs(inst, f.regs, words))] + below,
                ExecuteStorage(inst, f.regs, words))
  {
    hide ExecuteRegs, ExecuteStorage;
    assert ([f] + below)[0] == f && ([f] + below)[1..] == below;
  }

  /** An instruction that is not a call, whether it has code or not, is a step or none. */
  lemma InstructionRuns(
      p: Program, f: Frame, below: seq<Frame>, inst: Ssa.Instruction, m: RegisterMap, keys: StorageKeys,
      regs: Source.Regs, storage: Source.Storage, words: map<Word, Word>, call: Source.Oracle)
    returns (k: nat, slots': Regs, words': map<Word, Word>)
    requires LowerInstruction(inst, m, keys).Ok? && !inst.Call?
    requires var r := LowerInstruction(inst, m, keys).value; r.Some? ==> StandsAt(p, f, r.value)
    requires Injective(m) && KeysApart(keys) && RegsMatch(regs, f.regs, m) && StorageMatch(storage, words, keys)
    ensures k == if LowerInstruction(inst, m, keys).value.Some? then 1 else 0
    ensures SourceSteps(p, Running([f] + below, words), k) ==
            Running([f.(index := f.index + k, regs := slots')] + below, words')
    ensures var (regs', storage') := Source.Execute(inst, regs, storage, call);
            RegsMatch(regs', slots', m) && StorageMatch(storage', words', keys)
  {
    hide RegsMatch, StorageMatch, Injective, KeysApart, LowerInstruction, SourceStep, Source.Execute;
    if LowerInstruction(inst, m, keys).value.None? {
      DroppedDoesNothing(inst, m, keys, regs, storage, call);
      k, slots', words' := 0, f.regs, words;
    } else {
      var lowered := LowerInstruction(inst, m, keys).value.value;
      PlainMatches(inst, m, keys, regs, f.regs, storage, words, call);
      k, slots', words' := 1, ExecuteRegs(lowered, f.regs, words), ExecuteStorage(lowered, f.regs, words);
      PlainSteps(p, f, below, lowered, words);
      OneStep(p, Running([f] + below, words));
    }
  }

  /** What stands in the block from the frame's index on. */
  ghost predicate StandsFrom(p: Program, f: Frame, insts: seq<Lowered.Instruction>) {
    && f.fn in p && f.block in p[f.fn].cfg.blocks
    && f.index + |insts| <= |p[f.fn].cfg.blocks[f.block].instructions|
    && p[f.fn].cfg.blocks[f.block].instructions[f.index..f.index + |insts|] == insts
  }

  /** Instructions without calls, run from any place in a block. */
  lemma {:induction false} BodyRuns(
      p: Program, f: Frame, below: seq<Frame>, body: seq<Ssa.Instruction>, m: RegisterMap, keys: StorageKeys,
      regs: Source.Regs, storage: Source.Storage, words: map<Word, Word>, call: Source.Oracle)
    returns (k: nat, slots': Regs, words': map<Word, Word>)
    requires LowerBody(body, m, keys).Ok? && forall i :: 0 <= i < |body| ==> !body[i].Call?
    requires StandsFrom(p, f, LowerBody(body, m, keys).value)
    requires Injective(m) && KeysApart(keys) && RegsMatch(regs, f.regs, m) && StorageMatch(storage, words, keys)
    ensures SourceSteps(p, Running([f] + below, words), k) ==
            Running([f.(index := f.index + |LowerBody(body, m, keys).value|, regs := slots')] + below, words')
    ensures var (regs', storage') := Source.ExecuteAll(body, regs, storage, call);
            RegsMatch(regs', slots', m) && StorageMatch(storage', words', keys)
    decreases |body|
  {
    hide RegsMatch, StorageMatch, Injective, KeysApart, LowerInstruction, SourceStep, Source.Execute;
    if body == [] {
      k, slots', words' := 0, f.regs, words;
    } else {
      var n := |body| - 1;
      var init, all := LowerBody(body[..n], m, keys).value, LowerBody(body, m, keys).value;
      InitStands(p, f, init, all);
      var k1, slots, mid := BodyRuns(p, f, below, body[..n], m, keys, regs, storage, words, call);
      var (regs1, storage1) := Source.ExecuteAll(body[..n], regs, storage, call);
      var f1 := f.(index := f.index + |init|, regs := slots);
      LastStands(p, f, f1, init, all);
      var k2;
      k2, slots', words' := InstructionRuns(p, f1, below, body[n], m, keys, regs1, storage1, mid, call);
      k := k1 + k2;
      StepsAdd(p, Running([f] + below, words), k1, k2);
    }
  }

  lemma InitStands(p: Program, f: Frame, init: seq<Lowered.Instruction>, all: seq<Lowered.Instruction>)
    requires StandsFrom(p, f, all) && init <= all
    ensures StandsFrom(p, f, init)
  {
    var insts := p[f.fn].cfg.blocks[f.block].instructions;
    assert insts[f.index..f.index + |init|] == insts[f.index..f.index + |all|][..|init|];
  }

  lemma LastStands(
      p: Program, f: Frame, f1: Frame, init: seq<Lowered.Instruction>, all: seq<Lowered.Instruction>)
    requires StandsFrom(p, f, all) && init <= all && f1.fn == f.fn && f1.block == f.block
    requires f1.index == f.index + |init|
    ensures |all| > |init| ==> StandsAt(p, f1, all[|init|])
  {
    if |all| > |init| {
      assert p[f.fn].cfg.blocks[f.block].instructions[f.index..f.index + |all|][|init|] == all[|init|];
    }
  }
}
