/** The simulation relation between source configurations and machine states. */
module Activations {
  import opened Wrappers
  import opened Words
  import opened Evm
  import opened Lowered
  import opened Semantics
  import opened LiveSets
  import opened Shuffler
  import opened Codegen
  import opened InstructionProofs
  import opened Image

  /**
   * A source frame and where the machine is in its code: the slots its block has
   * put on the stack, the next label of the code generator, and the next item.
   */
  datatype Act = Act(frame: Frame, blockStack: seq<Slot>, next: Label, pc: nat)

  ghost predicate Located(img: Image, a: Act) {
    && a.frame.fn in img.units && a.frame.fn in img.firsts && a.frame.fn in img.live
    && a.frame.fn in img.sizes && a.frame.fn in img.reach
    && a.frame.block in img.live[a.frame.fn].liveOut
    && a.frame.block in img.units[a.frame.fn].fn.cfg.blocks
    && a.frame.index <= |img.units[a.frame.fn].fn.cfg.blocks[a.frame.block].instructions|
  }

  function BlockOf(img: Image, a: Act): Block
    requires a.frame.fn in img.units && a.frame.block in img.units[a.frame.fn].fn.cfg.blocks
  {
    img.units[a.frame.fn].fn.cfg.blocks[a.frame.block]
  }

  function AllocOf(img: Image, a: Act): Allocation
    requires a.frame.fn in img.units
  {
    img.units[a.frame.fn].alloc
  }

  function EntryOf(img: Image, a: Act): seq<Slot>
    requires a.frame.fn in img.units
  {
    Layout(AllocOf(img, a), a.frame.block)
  }

  /** The slots whose values the activation keeps on the stack. */
  function Cur(img: Image, a: Act): seq<Slot>
    requires a.frame.fn in img.units
  {
    a.blockStack + EntryOf(img, a)
  }

  /** Every value is in its home: stack slots on the stack, the others in memory. */
  ghost predicate AtHome(s: Slot, alloc: Allocation, base: nat, cur: seq<Slot>, regs: Regs, memory: map<nat, Word>) {
    if OnStack(alloc, s) then s in cur else Load(memory, MemoryOffset(base, s)) == Read(regs, s)
  }

  ghost predicate AllHome(live: set<Slot>, img: Image, a: Act, memory: map<nat, Word>)
    requires a.frame.fn in img.units
  {
    && (forall s :: s in live ==> AtHome(s, AllocOf(img, a), img.units[a.frame.fn].base, Cur(img, a), a.frame.regs,
        memory))
    && CopiesValid(img, a.frame.fn, a.frame.regs, memory)
  }

  /** The memory copies that a branch may fall back on hold the parameters' values. */
  ghost predicate CopiesValid(img: Image, fn: FnId, regs: Regs, memory: map<nat, Word>)
    requires fn in img.units
  {
    forall s {:trigger HasCopy(img.units[fn], s)} ::
      HasCopy(img.units[fn], s) ==> Load(memory, MemoryOffset(img.units[fn].base, s)) == Read(regs, s)
  }

  function LiveAt(img: Image, a: Act, index: nat): set<Slot>
    requires a.frame.fn in img.units && a.frame.block in img.units[a.frame.fn].fn.cfg.blocks
    requires a.frame.fn in img.live && a.frame.block in img.live[a.frame.fn].liveOut
    requires index <= |BlockOf(img, a).instructions|
  {
    LiveBefore(BlockOf(img, a).instructions[index..], BlockOf(img, a).terminator,
        img.live[a.frame.fn].liveOut[a.frame.block])
  }

  function RestOf(img: Image, a: Act, index: nat, bs: seq<Slot>, next: Label): Result<Piece>
    requires a.frame.fn in img.units && a.frame.fn in img.firsts
    requires a.frame.block in img.units[a.frame.fn].fn.cfg.blocks
    requires index <= |BlockOf(img, a).instructions|
  {
    RestCode(BlockOf(img, a).instructions[index..], BlockOf(img, a).terminator,
             ContextIn(img, a.frame.fn), EntryOf(img, a), bs, next)
  }

  /** The rest of the block from instruction `index` on sits in the image at item `pc`, behind `before`. */
  ghost predicate RestPlaced(img: Image, a: Act, index: nat, bs: seq<Slot>, pc: nat, before: seq<Asm>)
    requires Located(img, a) && index <= |BlockOf(img, a).instructions|
  {
    && RestOf(img, a, index, bs, a.next).Ok?
    && RestOf(img, a, index, bs, a.next).value.whole
    && CodeAt(img.code, pc, before + RestOf(img, a, index, bs, a.next).value.code)
  }

  /** The three things the relation says of an activation; proofs open one at a time. */
  datatype Facet = SlotShape | CodeInPlace | ValuesHome

  ghost predicate TopFacet(img: Image, a: Act, memory: map<nat, Word>, facet: Facet)
    requires Located(img, a)
  {
    match facet
    case SlotShape => Shape(Cur(img, a), AllocOf(img, a))
    case CodeInPlace => RestPlaced(img, a, a.frame.index, a.blockStack, a.pc, [])
    case ValuesHome => AllHome(LiveAt(img, a, a.frame.index), img, a, memory)
  }

  /** The running activation: the machine is about to run the rest of its block. */
  ghost predicate TopOk(img: Image, a: Act, memory: map<nat, Word>) {
    Located(img, a) && forall facet :: TopFacet(img, a, memory, facet)
  }

  lemma TopOpen(img: Image, a: Act, memory: map<nat, Word>)
    requires TopOk(img, a, memory)
    ensures Located(img, a) && Shape(Cur(img, a), AllocOf(img, a))
    ensures RestOf(img, a, a.frame.index, a.blockStack, a.next).Ok?
    ensures RestOf(img, a, a.frame.index, a.blockStack, a.next).value.whole
    ensures CodeAt(img.code, a.pc, RestOf(img, a, a.frame.index, a.blockStack, a.next).value.code)
    ensures AllHome(LiveAt(img, a, a.frame.index), img, a, memory)
  {
    assert TopFacet(img, a, memory, SlotShape) && TopFacet(img, a, memory, CodeInPlace)
        && TopFacet(img, a, memory, ValuesHome);
    var code := RestOf(img, a, a.frame.index, a.blockStack, a.next).value.code;
    assert [] + code == code;
  }

  lemma TopHomes(img: Image, a: Act, memory: map<nat, Word>)
    requires TopOk(img, a, memory)
    ensures AllHome(LiveAt(img, a, a.frame.index), img, a, memory)
  {
    assert TopFacet(img, a, memory, ValuesHome);
  }

  lemma TopClose(img: Image, a: Act, memory: map<nat, Word>)
    requires Located(img, a) && Shape(Cur(img, a), AllocOf(img, a))
    requires RestOf(img, a, a.frame.index, a.blockStack, a.next).Ok?
    requires RestOf(img, a, a.frame.index, a.blockStack, a.next).value.whole
    requires CodeAt(img.code, a.pc, RestOf(img, a, a.frame.index, a.blockStack, a.next).value.code)
    requires AllHome(LiveAt(img, a, a.frame.index), img, a, memory)
    ensures TopOk(img, a, memory)
  {
    hide AllHome, Shape, RestOf, LiveAt, Cur;
    var code := RestOf(img, a, a.frame.index, a.blockStack, a.next).value.code;
    assert [] + code == code;
    forall facet ensures TopFacet(img, a, memory, facet) {
      match facet
      case SlotShape =>
      case CodeInPlace =>
      case ValuesHome =>
    }
  }

  /** The activation is at a call of `callee`. */
  ghost predicate AtCall(img: Image, a: Act, callee: FnId) {
    && Located(img, a)
    && a.frame.index < |BlockOf(img, a).instructions|
    && BlockOf(img, a).instructions[a.frame.index].Call?
    && BlockOf(img, a).instructions[a.frame.index].target == Internal(callee)
  }

  ghost function StoreOf(img: Image, a: Act): Result<(seq<Asm>, seq<Slot>)>
    requires Located(img, a) && a.frame.index < |BlockOf(img, a).instructions|
    requires BlockOf(img, a).instructions[a.frame.index].Call?
  {
    StoreResult(BlockOf(img, a).instructions[a.frame.index].result, ContextIn(img, a.frame.fn), EntryOf(img, a),
        a.blockStack)
  }

  ghost predicate WaitFacet(img: Image, a: Act, callee: FnId, memory: map<nat, Word>, facet: Facet)
    requires AtCall(img, a, callee)
  {
    match facet
    case SlotShape => Shape(Cur(img, a), AllocOf(img, a))
    case CodeInPlace =>
      StoreOf(img, a).Ok? &&
      RestPlaced(img, a, a.frame.index + 1, StoreOf(img, a).value.1, a.pc, [Do(JUMPDEST)] + StoreOf(img, a).value.0)
    case ValuesHome =>
      AllHome(LiveAt(img, a, a.frame.index + 1) - Defs(BlockOf(img, a).instructions[a.frame.index]), img, a, memory)
  }

  /** An activation waiting for `callee`: its continuation stores the result and runs on. */
  ghost predicate Waiting(img: Image, a: Act, callee: FnId, memory: map<nat, Word>) {
    AtCall(img, a, callee) && forall facet :: WaitFacet(img, a, callee, memory, facet)
  }

  /** Where the innermost of some activations returns to. */
  ghost function ReturnWord(img: Image, callers: seq<Act>, cont: Word): Word {
    if callers == [] || callers[0].pc >= |img.code| then cont
    else Offset(img.code, callers[0].pc) % ADDRESS_LIMIT
  }

  /** The whole stack: each activation's slots above its continuation. */
  ghost function FullStack(img: Image, acts: seq<Act>, cont: Word, base: seq<Word>): seq<Word>
    requires forall i :: 0 <= i < |acts| ==> acts[i].frame.fn in img.units
  {
    if acts == [] then base
    else
      var under := [ReturnWord(img, acts[1..], cont)] + FullStack(img, acts[1..], cont, base);
      RegValues(Cur(img, acts[0]), acts[0].frame.regs) + under
  }

  /** Every activation but the first waits for the one before it, and each reaches those inside it. */
  ghost predicate ChainOk(img: Image, acts: seq<Act>, memory: map<nat, Word>) {
    && (forall i :: 0 <= i < |acts| ==> acts[i].frame.fn in img.units && acts[i].frame.fn in img.reach)
    && (forall i :: 0 < i < |acts| ==> Waiting(img, acts[i], acts[i - 1].frame.fn, memory))
    && (forall i, j :: 0 <= i <= j < |acts| ==> acts[i].frame.fn in img.reach[acts[j].frame.fn])
  }

  function Frames(acts: seq<Act>): (r: seq<Frame>)
    ensures |r| == |acts|
    ensures forall i :: 0 <= i < |acts| ==> r[i] == acts[i].frame
  {
    seq(|acts|, i requires 0 <= i < |acts| => acts[i].frame)
  }

  ghost predicate Related(
      img: Image, acts: seq<Act>, cont: Word, base: seq<Word>, storage: map<Word, Word>, m: Machine) {
    && acts != []
    && ChainOk(img, acts, m.local.memory)
    && TopOk(img, acts[0], m.local.memory)
    && m.pc == acts[0].pc
    && m.local.stack == FullStack(img, acts, cont, base)
    && m.local.storage == storage
  }

  // ---------------------------------------------------------------------------
  // What a step may do to memory
  // ---------------------------------------------------------------------------

  /** Only the frame of `fn` may have changed. */
  ghost predicate OnlyFrame(img: Image, fn: FnId, before: map<nat, Word>, after: map<nat, Word>)
  {
    forall g, s :: g in img.units && g in img.sizes && g != fn && s < img.sizes[g] ==>
      Load(after, MemoryOffset(img.units[g].base, s)) == Load(before, MemoryOffset(img.units[g].base, s))
  }

  lemma {:induction false} LiveBelow(insts: seq<Instruction>, t: Terminator, out: set<Slot>, size: nat)
    requires forall i :: 0 <= i < |insts| ==> SlotsBelow(insts[i], size)
    requires TerminatorBelow(t, size) && forall s :: s in out ==> s < size
    ensures forall s :: s in LiveBefore(insts, t, out) ==> s < size
    decreases |insts|
  {
    if insts != [] {
      assert forall i :: 0 <= i < |insts[1..]| ==> SlotsBelow(insts[1..][i], size) by {
        assert forall i :: 0 <= i < |insts[1..]| ==> insts[1..][i] == insts[i + 1];
      }
      LiveBelow(insts[1..], t, out, size);
      assert SlotsBelow(insts[0], size);
    }
  }

  lemma LiveAtBelow(img: Image, a: Act, index: nat)
    requires Good(img) && Located(img, a) && index <= |BlockOf(img, a).instructions|
    ensures forall s :: s in LiveAt(img, a, index) ==> s < img.sizes[a.frame.fn]
  {
    GoodFunction(img, a.frame.fn);
    assert SlotsAt(img.units[a.frame.fn], img.live[a.frame.fn], img.sizes[a.frame.fn], a.frame.block);
    LiveBelow(BlockOf(img, a).instructions[index..], BlockOf(img, a).terminator,
              img.live[a.frame.fn].liveOut[a.frame.block], img.sizes[a.frame.fn]);
  }

  lemma WaitingKept(img: Image, a: Act, callee: FnId, fn: FnId, before: map<nat, Word>, after: map<nat, Word>)
    requires Good(img) && Waiting(img, a, callee, before)
    requires callee in img.reach && fn in img.reach[callee] && OnlyFrame(img, fn, before, after)
    ensures Waiting(img, a, callee, after)
  {
    forall facet ensures WaitFacet(img, a, callee, after, facet) {
      assert WaitFacet(img, a, callee, before, facet);
      match facet
      case SlotShape =>
      case CodeInPlace =>
      case ValuesHome =>
        if fn == a.frame.fn {
          StackKept(img, a, callee, before, after);
        } else {
          LiveAtBelow(img, a, a.frame.index + 1);
          HomesKept(img, a, LiveAt(img, a, a.frame.index + 1) - Defs(BlockOf(img, a).instructions[a.frame.index]),
                    fn, before, after);
        }
    }
  }

  /** A function that is active again only loses what it has in memory, and across such a call that is nothing. */
  lemma StackKept(img: Image, a: Act, callee: FnId, before: map<nat, Word>, after: map<nat, Word>)
    requires Good(img) && AtCall(img, a, callee) && callee in img.reach && a.frame.fn in img.reach[callee]
    requires AllHome(LiveAt(img, a, a.frame.index + 1) - Defs(BlockOf(img, a).instructions[a.frame.index]), img, a,
                     before)
    ensures AllHome(LiveAt(img, a, a.frame.index + 1) - Defs(BlockOf(img, a).instructions[a.frame.index]), img, a,
        after)
  {
    CallKeepsStack(img, a, callee);
    hide Good, LiveAt, Cur, OnStack;
    var live := LiveAt(img, a, a.frame.index + 1) - Defs(BlockOf(img, a).instructions[a.frame.index]);
    forall s | s in live
      ensures AtHome(s, AllocOf(img, a), img.units[a.frame.fn].base, Cur(img, a), a.frame.regs, after)
    {
      assert AtHome(s, AllocOf(img, a), img.units[a.frame.fn].base, Cur(img, a), a.frame.regs, before);
    }
  }

  lemma CallKeepsStack(img: Image, a: Act, callee: FnId)
    requires Good(img) && AtCall(img, a, callee) && callee in img.reach && a.frame.fn in img.reach[callee]
    ensures !img.units[a.frame.fn].fn.isExternal
    ensures forall s :: s in LiveAt(img, a, a.frame.index + 1) - Defs(BlockOf(img, a).instructions[a.frame.index]) ==>
              OnStack(AllocOf(img, a), s)
  {
    GoodFunction(img, a.frame.fn);
    hide Good, Placed, OrderOk, LiveOk, LayoutsOk, SlotsOk, ElseCovered, NegateFree, ReturnsOk, ParametersOk,
        LiveBefore;
    hide OnStack, Defs;
    assert CallOk(img, a.frame.fn, a.frame.block, a.frame.index);
  }

  lemma HomesKept(img: Image, a: Act, live: set<Slot>, fn: FnId, before: map<nat, Word>, after: map<nat, Word>)
    requires Good(img) && Located(img, a) && fn != a.frame.fn && OnlyFrame(img, fn, before, after)
    requires forall s :: s in live ==> s < img.sizes[a.frame.fn]
    requires AllHome(live, img, a, before)
    ensures AllHome(live, img, a, after)
  {
    hide Good, HasCopy;
    forall s | HasCopy(img.units[a.frame.fn], s)
      ensures Load(after, MemoryOffset(img.units[a.frame.fn].base, s)) == Read(a.frame.regs, s)
    {
      CopyBelow(img, a.frame.fn, s);
    }
    forall s | s in live
      ensures AtHome(s, AllocOf(img, a), img.units[a.frame.fn].base, Cur(img, a), a.frame.regs, after)
    {
      assert AtHome(s, AllocOf(img, a), img.units[a.frame.fn].base, Cur(img, a), a.frame.regs, before);
    }
  }

  lemma CopyBelow(img: Image, fn: FnId, s: Slot)
    requires Good(img) && fn in img.units && fn in img.sizes && HasCopy(img.units[fn], s)
    ensures s < img.sizes[fn]
  {
    GoodFunction(img, fn);
  }

  /** A step of the top activation keeps all the waiting ones, whether or not its function is active more than once. */
  lemma CallersKept(img: Image, acts: seq<Act>, a': Act, before: map<nat, Word>, after: map<nat, Word>)
    requires acts != [] && Good(img) && ChainOk(img, acts, before)
    requires a'.frame.fn == acts[0].frame.fn
    requires OnlyFrame(img, a'.frame.fn, before, after)
    ensures ChainOk(img, [a'] + acts[1..], after)
  {
    var acts' := [a'] + acts[1..];
    forall i | 0 < i < |acts'| ensures Waiting(img, acts'[i], acts'[i - 1].frame.fn, after) {
      assert acts'[i] == acts[i] && acts'[i - 1].frame.fn == acts[i - 1].frame.fn;
      assert acts[0].frame.fn in img.reach[acts[i - 1].frame.fn];
      WaitingKept(img, acts[i], acts[i - 1].frame.fn, a'.frame.fn, before, after);
    }
  }
}
