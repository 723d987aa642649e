/** Where the compiled code does not do what the source means, and exactly when it does. */
module Limits {
  import opened Wrappers
  import opened Sequences
  import opened Words
  import opened Evm
  import opened Lowered
  import opened Semantics
  import opened Shuffler
  import opened Codegen
  import opened InstructionProofs
  import opened ControlProofs
  import opened Image
  import opened Activations
  import opened CallProofs
  import opened ProgramTheorem

  /**
   * A branch whose else-block needs a stack slot that the then-block does not: the
   * fall-through loads the slot's memory word, which was never written.
   */
  lemma ElseEdgeLosesSlot(base: nat, labels: Label -> Word)
    ensures var regs: Regs := map[0 := 7];
            var s := Local([], map[], map[]);
            && ShuffleCode([], [0], base).Ok? && ShuffleCode([], [0], base).value.whole
            && s.stack == RegValues([], regs) + []
            && Run(ShuffleCode([], [0], base).value.code, labels, s) != Some(s.(stack := RegValues([0], regs) + []))
  {
    var regs: Regs := map[0 := 7];
    var s := Local([], map[], map[]);
    assert Present([]) == [];
    ShuffleFits(Present([]), [0], base);
    assert RegValues([], regs) + [] == [];
    ElseEdgeExact([], [0], base, regs, [], labels, s);
    assert 0 in [0];
    assert Load(s.memory, MemoryOffset(base, 0)) != Read(regs, 0);
  }

  /**
   * A parameter that was not assigned to the stack is not stored by an internal
   * prologue: afterwards its memory word is the argument exactly if it was before.
   */
  lemma MemoryParameterExact(
      u: Unit, values: seq<Word>, cont: Word, rest: seq<Word>, labels: Label -> Word, s: Local, i: nat)
    requires !u.fn.isExternal && Distinct(u.fn.parameters) && |values| == |u.fn.parameters| && i < |values|
    requires var entry := Layout(u.alloc, u.fn.cfg.entry);
             Prologue(u, entry).Ok? && Prologue(u, entry).value.whole && forall x :: x in entry ==> x in u.fn.parameters
    requires s.stack == [cont] + Reversed(values) + rest
    ensures var r := Run(Prologue(u, Layout(u.alloc, u.fn.cfg.entry)).value.code, labels, s);
            && r.Some?
            && (Load(r.value.memory, MemoryOffset(u.base, u.fn.parameters[i]))
                == Read(Bind(u.fn.parameters, values), u.fn.parameters[i])
                <==> Load(s.memory, MemoryOffset(u.base, u.fn.parameters[i])) == values[i])
  {
    hide Prologue, Run;
    PrologueRun(u, values, cont, rest, labels, s);
    BindRead(u.fn.parameters, values, i);
  }

  /**
   * The entry of an external function finds its arguments in memory and leaves what
   * a caller has pushed where it is. Entered by an internal call it sets up the
   * frame that the call protocol asks for exactly if there are no arguments.
   */
  lemma ExternalCalleeExact(
      u: Unit, values: seq<Word>, cont: Word, rest: seq<Word>, labels: Label -> Word, s: Local)
    requires u.fn.isExternal && |values| == |u.fn.parameters|
    requires forall x :: x in Layout(u.alloc, u.fn.cfg.entry) ==> x in u.fn.parameters
    requires s.stack == [cont] + Reversed(values) + rest
    ensures var entry := Layout(u.alloc, u.fn.cfg.entry);
            && Prologue(u, entry).Ok?
            && (Run(Prologue(u, entry).value.code, labels, s)
                == Some(s.(stack := RegValues(entry, Bind(u.fn.parameters, values)) + ([cont] + rest)))
                <==> values == [])
  {
    hide Run, LoadAll;
    var entry := Layout(u.alloc, u.fn.cfg.entry);
    var found := map x | x in entry :: Load(s.memory, MemoryOffset(u.base, x));
    LoadAllRun(entry, u.base, found, s.stack, labels, s);
    if values == [] {
      assert entry == [] by {
        if entry != [] {
          HeadIn(entry);
          assert false;
        }
      }
      assert RegValues(entry, found) + s.stack == RegValues(entry, Bind(u.fn.parameters, values)) + ([cont] + rest);
    } else {
      assert |RegValues(entry, found) + s.stack| > |RegValues(entry, Bind(u.fn.parameters, values)) + ([cont] + rest)|;
    }
  }

  /**
   * A slot that is read before it is written and is no parameter is in the entry
   * layout. Without parameters there is no prologue to put it there; with some, it is
   * loaded from memory. The entry has the layout it expects, every such slot holding
   * the 0 it reads as, exactly if there is none in the first case, and exactly if
   * memory holds 0 for each in the second.
   */
  lemma UnwrittenSlotExact(
      u: Unit, values: seq<Word>, cont: Word, rest: seq<Word>, labels: Label -> Word, s: Local)
    requires !u.fn.isExternal && Distinct(u.fn.parameters) && |values| == |u.fn.parameters|
    requires var entry := Layout(u.alloc, u.fn.cfg.entry); Prologue(u, entry).Ok? && Prologue(u, entry).value.whole
    requires s.stack == [cont] + Reversed(values) + rest
    ensures var entry := Layout(u.alloc, u.fn.cfg.entry);
            Run(Prologue(u, entry).value.code, labels, s)
            == Some(s.(stack := RegValues(entry, Bind(u.fn.parameters, values)) + ([cont] + rest)))
            <==>
            if u.fn.parameters == [] then entry == []
            else forall t :: t in entry && t !in u.fn.parameters ==> Load(s.memory, MemoryOffset(u.base, t)) == 0
  {
    hide ShuffleCode, RegValues, MemoryOffset, Run, Reversed;
    var entry, regs := Layout(u.alloc, u.fn.cfg.entry), Bind(u.fn.parameters, values);
    if u.fn.parameters == [] {
      NoPrologue(entry, regs, cont, rest, labels, s);
    } else {
      SunkThenShuffled(u, entry, values, cont, rest, labels, s);
      forall t | t !in u.fn.parameters ensures Read(regs, t) == 0 {
        NotBound(u.fn.parameters, values, t);
      }
    }
  }

  lemma SunkThenShuffled(
      u: Unit, entry: seq<Slot>, values: seq<Word>, cont: Word, rest: seq<Word>, labels: Label -> Word, s: Local)
    requires !u.fn.isExternal && Distinct(u.fn.parameters) && |values| == |u.fn.parameters| && values != []
    requires Prologue(u, entry).Ok? && Prologue(u, entry).value.whole
    requires s.stack == [cont] + Reversed(values) + rest
    ensures var regs := Bind(u.fn.parameters, values);
            Run(Prologue(u, entry).value.code, labels, s) == Some(s.(stack := RegValues(entry, regs) + ([cont] + rest)))
            <==>
            forall t :: t in entry && t !in u.fn.parameters ==> Load(s.memory, MemoryOffset(u.base, t)) == Read(regs, t)
  {
    hide ShuffleCode, RegValues, MemoryOffset, Run, Bind, ArgumentOrder;
    var regs := Bind(u.fn.parameters, values);
    var order := ArgumentOrder(u.fn.parameters);
    var sunk := s.(stack := [values[0]] + Reversed(values[1..]) + ([cont] + rest));
    SinkContinuation(values, cont, rest, labels, s);
    ArgumentValues(u.fn.parameters, values);
    RunAppend([Do(SWAP(|values|))], ShuffleCode(order, entry, u.base).value.code, labels, s);
    ElseEdgeExact(order, entry, u.base, regs, [cont] + rest, labels, sunk);
    forall t ensures t in order <==> t in u.fn.parameters {
      OnlyArguments(u.fn.parameters, t);
    }
  }

  lemma OnlyArguments(parameters: seq<Slot>, x: Slot)
    requires parameters != []
    ensures x in ArgumentOrder(parameters) <==> x in parameters
  {
    if x in parameters {
      InArgumentOrder(parameters, x);
    }
  }

  lemma NoPrologue(entry: seq<Slot>, regs: Regs, cont: Word, rest: seq<Word>, labels: Label -> Word, s: Local)
    requires s.stack == [cont] + [] + rest
    ensures Run([], labels, s) == Some(s.(stack := RegValues(entry, regs) + ([cont] + rest))) <==> entry == []
  {
    if entry == [] {
      assert RegValues(entry, regs) + ([cont] + rest) == s.stack;
    } else {
      assert |RegValues(entry, regs) + ([cont] + rest)| > |s.stack|;
    }
  }

  /**
   * The same for an external function, whose entry loads its whole layout from
   * memory: it has the layout it expects exactly if memory holds 0 for each such slot.
   */
  lemma UnwrittenExternalExact(u: Unit, values: seq<Word>, rest: seq<Word>, labels: Label -> Word, s: Local)
    requires u.fn.isExternal && Distinct(u.fn.parameters) && |values| == |u.fn.parameters| && s.stack == rest
    requires forall i :: 0 <= i < |values| ==> Load(s.memory, MemoryOffset(u.base, u.fn.parameters[i])) == values[i]
    ensures var entry := Layout(u.alloc, u.fn.cfg.entry);
            && Prologue(u, entry).Ok?
            && (Run(Prologue(u, entry).value.code, labels, s)
                == Some(s.(stack := RegValues(entry, Bind(u.fn.parameters, values)) + rest))
                <==>
                forall t :: t in entry && t !in u.fn.parameters ==> Load(s.memory, MemoryOffset(u.base, t)) == 0)
  {
    hide LoadAll, MemoryOffset, Run, Bind, Distinct;
    var entry, regs := Layout(u.alloc, u.fn.cfg.entry), Bind(u.fn.parameters, values);
    var found := map x | x in entry :: Load(s.memory, MemoryOffset(u.base, x));
    LoadAllRun(entry, u.base, found, rest, labels, s);
    forall t | t in entry
      ensures Read(found, t) == Read(regs, t) <==>
              (t !in u.fn.parameters ==> Load(s.memory, MemoryOffset(u.base, t)) == 0)
    {
      ArgumentOrZero(u.fn.parameters, values, t);
    }
    SameValues(entry, found, regs, rest);
  }

  lemma ArgumentOrZero(parameters: seq<Slot>, values: seq<Word>, t: Slot)
    requires |parameters| == |values| && Distinct(parameters)
    ensures forall i :: 0 <= i < |parameters| && parameters[i] == t ==> Read(Bind(parameters, values), t) == values[i]
    ensures t !in parameters ==> Read(Bind(parameters, values), t) == 0
  {
    hide Bind, Distinct;
    forall i | 0 <= i < |parameters| && parameters[i] == t ensures Read(Bind(parameters, values), t) == values[i] {
      BindRead(parameters, values, i);
    }
    if t !in parameters {
      NotBound(parameters, values, t);
    }
  }

  lemma SameValues(slots: seq<Slot>, a: Regs, b: Regs, rest: seq<Word>)
    ensures RegValues(slots, a) + rest == RegValues(slots, b) + rest <==> forall t :: t in slots ==>
        Read(a, t) == Read(b, t)
  {
    hide Read;
    if RegValues(slots, a) + rest == RegValues(slots, b) + rest {
      forall t | t in slots ensures Read(a, t) == Read(b, t) {
        var i :| 0 <= i < |slots| && slots[i] == t;
        assert (RegValues(slots, a) + rest)[i] == (RegValues(slots, b) + rest)[i];
      }
    }
    if forall t :: t in slots ==> Read(a, t) == Read(b, t) {
      assert RegValues(slots, a) == RegValues(slots, b);
    }
  }

  /**
   * A slot that is read before it is written and was assigned to memory is in no
   * layout, and neither entry writes it: the 0 it reads as is in its home exactly if
   * its memory word was 0 before.
   */
  lemma UnwrittenMemoryExact(
      u: Unit, values: seq<Word>, cont: Word, rest: seq<Word>, labels: Label -> Word, s: Local, t: Slot)
    requires Distinct(u.fn.parameters) && |values| == |u.fn.parameters| && t !in u.fn.parameters && !OnStack(u.alloc, t)
    requires var entry := Layout(u.alloc, u.fn.cfg.entry); Prologue(u, entry).Ok? && Prologue(u, entry).value.whole
    requires s.stack == if u.fn.isExternal then [cont] + rest else [cont] + Reversed(values) + rest
    ensures var entry := Layout(u.alloc, u.fn.cfg.entry);
            var r := Run(Prologue(u, entry).value.code, labels, s);
            && r.Some?
            && (AtHome(t, u.alloc, u.base, entry, Bind(u.fn.parameters, values), r.value.memory)
                <==> Load(s.memory, MemoryOffset(u.base, t)) == 0)
  {
    hide Prologue, Run, Bind, MemoryOffset, Load;
    PrologueKeepsMemory(u, values, cont, rest, labels, s);
    NotBound(u.fn.parameters, values, t);
  }

  lemma PrologueKeepsMemory(
      u: Unit, values: seq<Word>, cont: Word, rest: seq<Word>, labels: Label -> Word, s: Local)
    requires Distinct(u.fn.parameters) && |values| == |u.fn.parameters|
    requires var entry := Layout(u.alloc, u.fn.cfg.entry); Prologue(u, entry).Ok? && Prologue(u, entry).value.whole
    requires s.stack == if u.fn.isExternal then [cont] + rest else [cont] + Reversed(values) + rest
    ensures var r := Run(Prologue(u, Layout(u.alloc, u.fn.cfg.entry)).value.code, labels, s);
            r.Some? && r.value.memory == s.memory
  {
    hide ShuffleCode, RegValues, MemoryOffset, Run, Bind, ArgumentOrder, LoadAll, Reversed;
    var entry := Layout(u.alloc, u.fn.cfg.entry);
    if u.fn.isExternal {
      var found := map x | x in entry :: Load(s.memory, MemoryOffset(u.base, x));
      LoadAllRun(entry, u.base, found, s.stack, labels, s);
    } else if u.fn.parameters == [] {
      NothingRuns(labels, s);
    } else {
      var order := ArgumentOrder(u.fn.parameters);
      var sunk := s.(stack := [values[0]] + Reversed(values[1..]) + ([cont] + rest));
      SinkContinuation(values, cont, rest, labels, s);
      ArgumentValues(u.fn.parameters, values);
      RunAppend([Do(SWAP(|values|))], ShuffleCode(order, entry, u.base).value.code, labels, s);
      ShuffleDelivers(order, entry, u.base, Bind(u.fn.parameters, values), [cont] + rest, labels, sunk);
    }
  }

  lemma NothingRuns(labels: Label -> Word, s: Local)
    ensures Run([], labels, s) == Some(s)
  {
  }

  // ---------------------------------------------------------------------------
  // Recursion
  // ---------------------------------------------------------------------------

  /** In a program whose callees rank below their callers, a function reaches itself and what ranks below it. */
  function Below(ranks: map<FnId, nat>): map<FnId, set<FnId>> {
    map f | f in ranks :: {f} + set g | g in ranks && ranks[g] < ranks[f]
  }

  /** Then no call comes back to its own function, and nothing is asked about what lives across it. */
  lemma NoRecursion(img: Image, ranks: map<FnId, nat>, fn: FnId, g: FnId)
    requires img.reach == Below(ranks) && fn in ranks && g in ranks && ranks[g] < ranks[fn]
    ensures ReachOk(img, fn) && g in img.reach[fn] && fn !in img.reach[g]
  {
  }

  /**
   * Where a call does come back: once an inner activation has stored `w` in the
   * home of a slot that lives across the call, the slot of the outer activation is at
   * home exactly if it was on the stack or held `w` itself.
   */
  lemma RecursionExact(img: Image, a: Act, s: Slot, w: Word, memory: map<nat, Word>)
    requires a.frame.fn in img.units
    requires AtHome(s, AllocOf(img, a), img.units[a.frame.fn].base, Cur(img, a), a.frame.regs, memory)
    ensures var base := img.units[a.frame.fn].base;
            AtHome(s, AllocOf(img, a), base, Cur(img, a), a.frame.regs, memory[MemoryOffset(base, s) := w])
            <==> OnStack(AllocOf(img, a), s) || w == Read(a.frame.regs, s)
  {
  }
}
