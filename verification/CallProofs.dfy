/** The calling convention: arguments and continuation down, result up. */
module CallProofs {
  import opened Wrappers
  import opened Sequences
  import opened Words
  import opened Evm
  import opened Lowered
  import opened Semantics
  import opened Codegen
  import opened InstructionProofs
  import opened ControlProofs
  import opened Image
  import opened Activations
  import opened EdgeProofs

  // ---------------------------------------------------------------------------
  // Caller side
  // ---------------------------------------------------------------------------

  ghost predicate ArgumentsFindable(args: seq<Operand>, cur: seq<Slot>, regs: Regs, base: nat, memory: map<nat, Word>) {
    forall i :: 0 <= i < |args| && args[i].Location? ==> Findable(args[i].slot, cur, regs, base, memory)
  }

  /** The pushed arguments lie on the stack in reverse, above everything that was there. */
  lemma {:induction false} ArgumentsRun(
      args: seq<Operand>, base: nat, entry: seq<Slot>, bs: seq<Slot>, regs: Regs, rest: seq<Word>,
      labels: Label -> Word, s: Local)
    requires ArgumentsCode(args, base, entry, bs).Ok?
    requires s.stack == RegValues(bs + entry, regs) + rest
    requires ArgumentsFindable(args, bs + entry, regs, base, s.memory)
    ensures Run(ArgumentsCode(args, base, entry, bs).value, labels, s)
         == Some(s.(stack := Reversed(OperandValues(regs, args)) + s.stack))
    decreases |args|
  {
    hide OperandCode, AsmEffect;
    if args == [] {
      assert Reversed(OperandValues(regs, args)) + s.stack == s.stack;
    } else {
      var n := |args| - 1;
      var above := Reversed(OperandValues(regs, args[..n]));
      ArgumentsRun(args[..n], base, entry, bs, regs, rest, labels, s);
      LastArgument(args[n], base, entry, bs, above, regs, rest, labels, s);
      RunAppend(ArgumentsCode(args[..n], base, entry, bs).value, OperandCode(args[n], base, entry, bs, n).value, labels,
          s);
      LastOnTop(args, regs, s.stack);
    }
  }

  lemma LastOnTop(args: seq<Operand>, regs: Regs, rest: seq<Word>)
    requires args != []
    ensures var n := |args| - 1;
            [OperandValue(regs, args[n])] + (Reversed(OperandValues(regs, args[..n])) + rest) ==
            Reversed(OperandValues(regs, args)) + rest
  {
    ReversedValues(args, regs);
  }

  lemma LastArgument(
      o: Operand, base: nat, entry: seq<Slot>, bs: seq<Slot>, above: seq<Word>, regs: Regs, rest: seq<Word>,
      labels: Label -> Word, s: Local)
    requires s.stack == RegValues(bs + entry, regs) + rest
    requires o.Location? ==> Findable(o.slot, bs + entry, regs, base, s.memory)
    requires OperandCode(o, base, entry, bs, |above|).Ok?
    ensures Run(OperandCode(o, base, entry, bs, |above|).value, labels, s.(stack := above + s.stack))
         == Some(s.(stack := [OperandValue(regs, o)] + (above + s.stack)))
  {
    var s1 := s.(stack := above + s.stack);
    assert s1.stack == above + RegValues(bs + entry, regs) + rest;
    OperandRun(o, base, entry, bs, above, regs, rest, labels, s1);
  }

  lemma ReversedValues(args: seq<Operand>, regs: Regs)
    requires args != []
    ensures var n := |args| - 1;
            Reversed(OperandValues(regs, args)) == [OperandValue(regs, args[n])]
                + Reversed(OperandValues(regs, args[..n]))
  {
  }

  /** The jump of a call lands in the callee with the continuation's address on top. */
  lemma CallJumpReaches(code: seq<Asm>, pc: nat, cont: Label, callee: Label, j: nat, s: Local) returns (n: nat)
    requires UniqueMarks(code) && CodeSize(code) <= ADDRESS_LIMIT
    requires CodeAt(code, pc, CallJump(cont, callee))
    requires JumpTarget(code, LabelWord(code, callee)) == Some(j)
    ensures pc + 4 < |code| && code[pc + 4] == Do(JUMPDEST) && Offset(code, pc + 4) < WORD_MODULUS
    ensures Reaches(code, Machine(pc, s), n, Machine(j, s.(stack := [Offset(code, pc + 4)] + s.stack)))
  {
    hide CallJump, JumpCode, UniqueMarks, CodeSize, Reaches;
    CallJumpItems(code, pc, cont, callee);
    LabelLands(code, cont, pc + 3, pc + 4);
    var s1 := s.(stack := [LabelWord(code, cont)] + s.stack);
    OneStep(code, Machine(pc, s), Machine(pc + 1, s1));
    var k := JumpReaches(code, pc + 1, callee, j, s1);
    n := 1 + k;
    Chain(code, Machine(pc, s), 1, Machine(pc + 1, s1), k, Machine(j, s1));
  }

  lemma CallJumpItems(code: seq<Asm>, pc: nat, cont: Label, callee: Label)
    requires CodeAt(code, pc, CallJump(cont, callee))
    ensures pc + 4 < |code|
    ensures code[pc] == PushLabel(cont) && CodeAt(code, pc + 1, JumpCode(callee))
    ensures code[pc + 3] == Mark(cont) && code[pc + 4] == Do(JUMPDEST)
  {
    var head, jump, tail := [PushLabel(cont)], JumpCode(callee), [Mark(cont), Do(JUMPDEST)];
    assert CallJump(cont, callee) == head + (jump + tail);
    CodeAtSplit(code, pc, head, jump + tail);
    CodeAtSplit(code, pc + 1, jump, tail);
    CodeAtHead(code, pc, head);
    CodeAtHead(code, pc + 3, tail);
    assert code[pc + 3..pc + 5][1] == tail[1];
  }

  // ---------------------------------------------------------------------------
  // Callee side
  // ---------------------------------------------------------------------------

  lemma {:induction false} BindRead(parameters: seq<Slot>, values: seq<Word>, i: nat)
    requires |parameters| == |values| && Distinct(parameters) && i < |parameters|
    ensures Read(Bind(parameters, values), parameters[i]) == values[i]
  {
    var n := |parameters| - 1;
    if i < n {
      BindRead(parameters[..n], values[..n], i);
      assert parameters[i] != parameters[n];
    }
  }

  lemma {:induction false} NotBound(parameters: seq<Slot>, values: seq<Word>, t: Slot)
    requires |values| == |parameters| && t !in parameters
    ensures t !in Bind(parameters, values)
    decreases |parameters|
  {
    if parameters != [] {
      NotBound(parameters[..|parameters| - 1], values[..|values| - 1], t);
    }
  }

  lemma ArgumentValues(parameters: seq<Slot>, values: seq<Word>)
    requires |parameters| == |values| && Distinct(parameters) && parameters != []
    ensures RegValues(ArgumentOrder(parameters), Bind(parameters, values)) == [values[0]] + Reversed(values[1..])
  {
    hide Bind;
    var regs := Bind(parameters, values);
    forall i | 0 <= i < |parameters| ensures Read(regs, parameters[i]) == values[i] {
      BindRead(parameters, values, i);
    }
    ReversedRegs(parameters[1..], values[1..], regs);
    HeadRegs(parameters[0], Reversed(parameters[1..]), regs);
  }

  lemma ReversedRegs(slots: seq<Slot>, values: seq<Word>, regs: Regs)
    requires |slots| == |values| && forall i :: 0 <= i < |slots| ==> Read(regs, slots[i]) == values[i]
    ensures RegValues(Reversed(slots), regs) == Reversed(values)
  {
    hide Reversed, Read;
  }

  lemma HeadRegs(head: Slot, tail: seq<Slot>, regs: Regs)
    ensures RegValues([head] + tail, regs) == [Read(regs, head)] + RegValues(tail, regs)
  {
    hide Read;
  }

  lemma SwapEnds(c: Word, middle: seq<Word>, v: Word, rest: seq<Word>)
    ensures ([c] + (middle + [v]) + rest)[|middle| + 1] == v
    ensures ([c] + (middle + [v]) + rest)[0 := v][|middle| + 1 := c] == [v] + middle + ([c] + rest)
  {
  }

  /** SWAP n sinks the continuation below the arguments. */
  lemma SinkContinuation(values: seq<Word>, cont: Word, rest: seq<Word>, labels: Label -> Word, s: Local)
    requires 1 <= |values| <= 16
    requires s.stack == [cont] + Reversed(values) + rest
    ensures Run([Do(SWAP(|values|))], labels, s)
         == Some(s.(stack := [values[0]] + Reversed(values[1..]) + ([cont] + rest)))
  {
    SwapEnds(cont, Reversed(values[1..]), values[0], rest);
    assert Reversed(values) == Reversed(values[1..]) + [values[0]];
    RunSwap(|values|, labels, s);
  }

  lemma InArgumentOrder(parameters: seq<Slot>, x: Slot)
    requires x in parameters
    ensures x in ArgumentOrder(parameters)
  {
    var i :| 0 <= i < |parameters| && parameters[i] == x;
    if i > 0 {
      assert ArgumentOrder(parameters)[|parameters| - i] == x;
    }
  }

  /** The prologue of an internal function turns pushed arguments into its entry layout. */
  lemma PrologueRun(
      u: Unit, values: seq<Word>, cont: Word, rest: seq<Word>, labels: Label -> Word, s: Local)
    requires !u.fn.isExternal && Distinct(u.fn.parameters) && |values| == |u.fn.parameters|
    requires var entry := Layout(u.alloc, u.fn.cfg.entry);
             Prologue(u, entry).Ok? && Prologue(u, entry).value.whole && forall x :: x in entry ==> x in u.fn.parameters
    requires s.stack == [cont] + Reversed(values) + rest
    ensures var entry := Layout(u.alloc, u.fn.cfg.entry);
            Run(Prologue(u, entry).value.code, labels, s) ==
            Some(s.(stack := RegValues(entry, Bind(u.fn.parameters, values)) + ([cont] + rest)))
  {
    var entry, regs := Layout(u.alloc, u.fn.cfg.entry), Bind(u.fn.parameters, values);
    if u.fn.parameters == [] {
      if entry != [] {
        HeadIn(entry);
        assert false;
      }
      assert s.stack == RegValues(entry, regs) + ([cont] + rest);
    } else {
      var order := ArgumentOrder(u.fn.parameters);
      var s1 := s.(stack := RegValues(order, regs) + ([cont] + rest));
      ArgumentValues(u.fn.parameters, values);
      SinkContinuation(values, cont, rest, labels, s);
      forall x | x in entry ensures Findable(x, order, regs, u.base, s.memory) {
        InArgumentOrder(u.fn.parameters, x);
      }
      ShuffleMoves(order, entry, u.base, regs, [cont] + rest, labels, s1);
      RunAppend([Do(SWAP(|u.fn.parameters|))], ShuffleCode(order, entry, u.base).value.code, labels, s);
    }
  }

  /** The code of the entry block. */
  lemma EntryBlock(u: Unit, ctx: Context, next: Label)
    requires BlockCode(u, ctx, u.fn.cfg.entry, next).Ok? && u.fn.cfg.entry in ctx.labels
        && u.fn.cfg.entry in u.fn.cfg.blocks
    ensures var b := u.fn.cfg.entry;
            var head := Prologue(u, Layout(ctx.alloc, b));
            var body := RestCode(u.fn.cfg.blocks[b].instructions, u.fn.cfg.blocks[b].terminator,
                                 ctx, Layout(ctx.alloc, b), [], next);
            && head.Ok? && body.Ok?
            && BlockCode(u, ctx, b, next).value.code
            == [Mark(ctx.labels[b]), Do(JUMPDEST)] + head.value.code + body.value.code
            && (BlockCode(u, ctx, b, next).value.whole ==> head.value.whole && body.value.whole)
  {
  }

  /** Where a function's entry label lands: its prologue, then the body of its entry block. */
  lemma EntryPlace(img: Image, fn: FnId) returns (j: nat, next: Label)
    requires Good(img) && fn in img.units && Known(img, fn)
    requires img.units[fn].fn.cfg.entry in img.units[fn].fn.cfg.blocks
    ensures JumpTarget(img.code, LabelWord(img.code, img.calls[fn].entryLabel)) == Some(j)
    ensures j < |img.code| && img.code[j] == Do(JUMPDEST)
    ensures var u := img.units[fn];
            var head := Prologue(u, Layout(u.alloc, u.fn.cfg.entry));
            var body := RestCode(u.fn.cfg.blocks[u.fn.cfg.entry].instructions,
                u.fn.cfg.blocks[u.fn.cfg.entry].terminator,
                                 ContextIn(img, fn), Layout(u.alloc, u.fn.cfg.entry), [], next);
            && head.Ok? && head.value.whole && body.Ok? && body.value.whole
            && CodeAt(img.code, j + 1, head.value.code)
            && CodeAt(img.code, j + 1 + |head.value.code|, body.value.code)
  {
    hide Prologue, RestCode, ShuffleCode;
    var pc;
    pc, next := EntryBlockPlace(img, fn);
    GoodCode(img);
    var u := img.units[fn];
    var b := u.fn.cfg.entry;
    j := EntryLanding(img.code, pc - 1, img.calls[fn].entryLabel, ContextIn(img, fn).labels[b],
                      Prologue(u, Layout(u.alloc, b)).value.code,
                      RestCode(u.fn.cfg.blocks[b].instructions, u.fn.cfg.blocks[b].terminator,
                               ContextIn(img, fn), Layout(u.alloc, b), [], next).value.code);
  }

  lemma EntryBlockPlace(img: Image, fn: FnId) returns (pc: nat, next: Label)
    requires Good(img) && fn in img.units && Known(img, fn)
    requires img.units[fn].fn.cfg.entry in img.units[fn].fn.cfg.blocks
    ensures 1 <= pc <= |img.code| && img.code[pc - 1] == Mark(img.calls[fn].entryLabel)
    ensures var u := img.units[fn];
            var b := u.fn.cfg.entry;
            var head := Prologue(u, Layout(u.alloc, b));
            var body := RestCode(u.fn.cfg.blocks[b].instructions, u.fn.cfg.blocks[b].terminator,
                                 ContextIn(img, fn), Layout(u.alloc, b), [], next);
            && b in ContextIn(img, fn).labels
            && head.Ok? && head.value.whole && body.Ok? && body.value.whole
            && CodeAt(img.code, pc, [Mark(ContextIn(img, fn).labels[b]), Do(JUMPDEST)] + head.value.code
                + body.value.code)
  {
    UnitOrder(img, fn);
    GoodFunction(img, fn);
    var b := img.units[fn].fn.cfg.entry;
    assert b in img.units[fn].order;
    pc, next := BlockPlace(img, fn, b);
    EntryBlock(img.units[fn], ContextIn(img, fn), next);
    BodyPlace(img, fn);
  }

  lemma EntryLanding(code: seq<Asm>, pc: nat, l: Label, inner: Label, head: seq<Asm>, body: seq<Asm>) returns (j: nat)
    requires UniqueMarks(code) && CodeSize(code) <= ADDRESS_LIMIT
    requires pc < |code| && code[pc] == Mark(l)
    requires CodeAt(code, pc + 1, [Mark(inner), Do(JUMPDEST)] + head + body)
    ensures JumpTarget(code, LabelWord(code, l)) == Some(j)
    ensures j < |code| && code[j] == Do(JUMPDEST)
    ensures CodeAt(code, j + 1, head) && CodeAt(code, j + 1 + |head|, body)
  {
    assert [Mark(inner), Do(JUMPDEST)] + head + body == [Mark(inner), Do(JUMPDEST)] + (head + body);
    LandingPlace(code, pc + 1, inner, head + body);
    j := pc + 2;
    LabelLands(code, l, pc, j);
    CodeAtSplit(code, pc + 3, head, body);
  }

  /** What a well-formed internal function guarantees its callers about its entry. */
  lemma EntryFacts(img: Image, fn: FnId)
    requires Good(img) && fn in img.units
    ensures Known(img, fn)
    ensures var u := img.units[fn];
            && u.fn.cfg.entry in u.fn.cfg.blocks
            && u.fn.cfg.entry in img.live[fn].liveIn && u.fn.cfg.entry in img.live[fn].liveOut
            && Distinct(u.fn.parameters)
            && (forall x :: x in img.live[fn].liveIn[u.fn.cfg.entry] ==> x in u.fn.parameters)
            && (forall x :: x in Layout(u.alloc, u.fn.cfg.entry) <==>
                  x in img.live[fn].liveIn[u.fn.cfg.entry] && OnStack(u.alloc, x))
            && (!u.fn.isExternal ==> forall x :: x in img.live[fn].liveIn[u.fn.cfg.entry] ==> OnStack(u.alloc, x))
  {
    UnitKnown(img, fn);
    GoodFunction(img, fn);
    BlockLayout(img, fn, img.units[fn].fn.cfg.entry);
  }

  /** A called function's activation: arguments and continuation on the stack become its frame. */
  lemma CalleeEntry(img: Image, fn: FnId, values: seq<Word>, cont: Word, rest: seq<Word>, s: Local)
    returns (j: nat, a: Act, s': Local, n: nat)
    requires Good(img) && fn in img.units && !img.units[fn].fn.isExternal
    requires |values| == |img.units[fn].fn.parameters|
    requires s.stack == [cont] + Reversed(values) + rest
    ensures fn in img.calls
    ensures JumpTarget(img.code, LabelWord(img.code, img.calls[fn].entryLabel)) == Some(j)
    ensures a.frame == Frame(fn, img.units[fn].fn.cfg.entry, 0, Bind(img.units[fn].fn.parameters, values))
    ensures n > 0 && Reaches(img.code, Machine(j, s), n, Machine(a.pc, s'))
    ensures TopOk(img, a, s'.memory)
    ensures s' == s.(stack := RegValues(Cur(img, a), a.frame.regs) + ([cont] + rest))
  {
    hide Prologue, RestCode, ShuffleCode;
    UnitKnown(img, fn);
    var u, regs := img.units[fn], Bind(img.units[fn].fn.parameters, values);
    j, a := CalleeTop(img, fn, regs, s.memory);
    s' := s.(stack := RegValues(Cur(img, a), regs) + ([cont] + rest));
    n := CalleeProlog(img.code, u, j, values, cont, rest, s, s');
  }

  lemma CalleeProlog(
      code: seq<Asm>, u: Unit, j: nat, values: seq<Word>, cont: Word, rest: seq<Word>, s: Local, s': Local)
    returns (n: nat)
    requires !u.fn.isExternal && Distinct(u.fn.parameters) && |values| == |u.fn.parameters|
    requires j < |code| && code[j] == Do(JUMPDEST)
    requires var entry := Layout(u.alloc, u.fn.cfg.entry);
             && Prologue(u, entry).Ok? && Prologue(u, entry).value.whole
                 && (forall x :: x in entry ==> x in u.fn.parameters)
             && CodeAt(code, j + 1, Prologue(u, entry).value.code)
             && s' == s.(stack := RegValues(entry, Bind(u.fn.parameters, values)) + ([cont] + rest))
    requires s.stack == [cont] + Reversed(values) + rest
    ensures n > 0 && Reaches(code, Machine(j, s), n,
                    Machine(j + 1 + |Prologue(u, Layout(u.alloc, u.fn.cfg.entry)).value.code|, s'))
  {
    hide Prologue, ShuffleCode;
    PrologueRun(u, values, cont, rest, Labels(code), s);
    n := LandThenRun(code, j, Prologue(u, Layout(u.alloc, u.fn.cfg.entry)).value.code, s, s');
  }

  /** Behind an internal function's prologue its body runs, with every live parameter on the stack. */
  lemma CalleeTop(img: Image, fn: FnId, regs: Regs, memory: map<nat, Word>) returns (j: nat, a: Act)
    requires Good(img) && fn in img.units && !img.units[fn].fn.isExternal && Known(img, fn)
    ensures Distinct(img.units[fn].fn.parameters)
    ensures forall x :: x in Layout(img.units[fn].alloc, img.units[fn].fn.cfg.entry) ==>
        x in img.units[fn].fn.parameters
    ensures JumpTarget(img.code, LabelWord(img.code, img.calls[fn].entryLabel)) == Some(j)
    ensures j < |img.code| && img.code[j] == Do(JUMPDEST)
    ensures var u := img.units[fn];
            var head := Prologue(u, Layout(u.alloc, u.fn.cfg.entry));
            && head.Ok? && head.value.whole
            && CodeAt(img.code, j + 1, head.value.code) && a.pc == j + 1 + |head.value.code|
    ensures a.frame == Frame(fn, img.units[fn].fn.cfg.entry, 0, regs)
    ensures TopOk(img, a, memory) && Cur(img, a) == Layout(img.units[fn].alloc, img.units[fn].fn.cfg.entry)
  {
    EntryFacts(img, fn);
    var u := img.units[fn];
    var b := u.fn.cfg.entry;
    var next;
    j, next := EntryPlace(img, fn);
    a := Act(Frame(fn, b, 0, regs), [], next, j + 1 + |Prologue(u, Layout(u.alloc, b)).value.code|);
    BodyTop(img, fn, b, next, a.pc, regs, memory);
  }

  lemma LandThenRun(code: seq<Asm>, j: nat, part: seq<Asm>, s: Local, s': Local) returns (n: nat)
    requires j < |code| && code[j] == Do(JUMPDEST)
    requires CodeAt(code, j + 1, part) && Run(part, Labels(code), s) == Some(s')
    ensures n > 0 && Reaches(code, Machine(j, s), n, Machine(j + 1 + |part|, s'))
  {
    LandingReaches(code, j, s);
    RunReaches(code, j + 1, part, s, s');
    n := 1 + |part|;
    Chain(code, Machine(j, s), 1, Machine(j + 1, s), |part|, Machine(j + 1 + |part|, s'));
  }
}
