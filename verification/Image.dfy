/**
 * A linked program: source functions, what they were compiled from, and the
 * assembly that contains them. The predicates here are what the simulation
 * theorem asks of it; each can be checked before anything is run.
 */
module Image {
  import opened Wrappers
  import opened Sequences
  import opened Evm
  import opened Lowered
  import opened Semantics
  import opened LiveSets
  import opened Shuffler
  import opened Codegen

  datatype Image = Image(
    units: map<FnId, Unit>,
    calls: map<FnId, CallInfo>,
    firsts: map<FnId, Label>,       // first block label of each function
    starts: map<FnId, nat>,         // where each function's entry mark sits
    sizes: map<FnId, nat>,          // slots in each memory frame
    live: map<FnId, LiveInfo>,
    reach: map<FnId, set<FnId>>,    // what may run while a function is active, itself included
    code: seq<Asm>)

  function ProgramOf(units: map<FnId, Unit>): Program {
    map fn | fn in units :: units[fn].fn
  }

  function ContextIn(img: Image, fn: FnId): Context
    requires fn in img.units && fn in img.firsts
  {
    ContextOf(img.units[fn], img.calls, img.firsts[fn])
  }

  // ---------------------------------------------------------------------------
  // Conditions on one function
  // ---------------------------------------------------------------------------

  /** The block order starts at the entry, and nothing jumps back to the entry. */
  ghost predicate OrderOk(u: Unit) {
    && WellFormed(u.fn.cfg)
    && u.order != [] && u.order[0] == u.fn.cfg.entry && Distinct(u.order)
    && u.fn.cfg.blocks[u.fn.cfg.entry].predecessors == []
  }

  // The conditions on blocks are stated block by block, so that a proof names
  // the block whose condition it uses.

  /** A block's layout is its live-in slots that were assigned to the stack. */
  ghost predicate LayoutAt(u: Unit, live: LiveInfo, b: BlockId)
    requires b in live.liveIn
  {
    && Distinct(Layout(u.alloc, b))
    && forall s :: s in Layout(u.alloc, b) <==> s in live.liveIn[b] && OnStack(u.alloc, s)
  }

  ghost predicate LayoutsOk(u: Unit, live: LiveInfo)
    requires live.liveIn.Keys == u.fn.cfg.blocks.Keys
  {
    forall b {:trigger LayoutAt(u, live, b)} :: b in u.fn.cfg.blocks ==> LayoutAt(u, live, b)
  }

  /** Nothing is read before it is written, except parameters. */
  ghost predicate LiveOk(u: Unit, live: LiveInfo) {
    && Solution(u.fn.cfg, live)
    && u.fn.cfg.entry in u.fn.cfg.blocks
    && live.liveIn[u.fn.cfg.entry] <= ToSet(u.fn.parameters)
  }

  ghost predicate SlotsBelow(inst: Instruction, size: nat) {
    (forall s :: s in Uses(inst) ==> s < size) && (forall s :: s in Defs(inst) ==> s < size)
  }

  ghost predicate TerminatorBelow(t: Terminator, size: nat) {
    forall s :: s in TerminatorUses(t) ==> s < size
  }

  ghost predicate SlotsAt(u: Unit, live: LiveInfo, size: nat, b: BlockId)
    requires b in u.fn.cfg.blocks && b in live.liveOut
  {
    && (forall i :: 0 <= i < |u.fn.cfg.blocks[b].instructions| ==> SlotsBelow(u.fn.cfg.blocks[b].instructions[i], size))
    && TerminatorBelow(u.fn.cfg.blocks[b].terminator, size)
    && (forall s :: s in live.liveOut[b] ==> s < size)
  }

  /** Every slot of the function lies in its memory frame. */
  ghost predicate SlotsOk(u: Unit, live: LiveInfo, size: nat)
    requires live.liveOut.Keys == u.fn.cfg.blocks.Keys
  {
    && (forall b {:trigger SlotsAt(u, live, size, b)} :: b in u.fn.cfg.blocks ==> SlotsAt(u, live, size, b))
    && (forall s :: s in u.fn.parameters ==> s < size)
  }

  /** A parameter that an external caller has put in memory and that no instruction overwrites. */
  ghost predicate HasCopy(u: Unit, s: Slot) {
    && u.fn.isExternal && s in u.fn.parameters
    && forall b, i {:trigger Defs(u.fn.cfg.blocks[b].instructions[i])} ::
         b in u.fn.cfg.blocks && 0 <= i < |u.fn.cfg.blocks[b].instructions| ==>
             s !in Defs(u.fn.cfg.blocks[b].instructions[i])
  }

  ghost predicate ElseCoveredAt(u: Unit, b: BlockId)
    requires b in u.fn.cfg.blocks
  {
    u.fn.cfg.blocks[b].terminator.Branch? ==>
      forall s :: s in Layout(u.alloc, u.fn.cfg.blocks[b].terminator.elseBlock) ==>
        s in Layout(u.alloc, u.fn.cfg.blocks[b].terminator.thenBlock) || HasCopy(u, s)
  }

  /** The fall-through of a branch finds every slot it needs in the then-layout or, for a parameter, in memory. */
  ghost predicate ElseCovered(u: Unit) {
    forall b {:trigger ElseCoveredAt(u, b)} :: b in u.fn.cfg.blocks ==> ElseCoveredAt(u, b)
  }

  predicate IsNegate(inst: Instruction) {
    inst.UnaryOp? && inst.uop == Negate
  }

  ghost predicate NegateFree(u: Unit) {
    forall b, i {:trigger IsNegate(u.fn.cfg.blocks[b].instructions[i])} ::
      b in u.fn.cfg.blocks && 0 <= i < |u.fn.cfg.blocks[b].instructions| ==>
        !IsNegate(u.fn.cfg.blocks[b].instructions[i])
  }

  ghost predicate ReturnsAt(u: Unit, b: BlockId)
    requires b in u.fn.cfg.blocks
  {
    u.fn.cfg.blocks[b].terminator.Return? ==>
      u.fn.cfg.blocks[b].terminator.value.Some? == u.fn.returnsValue
  }

  /** What typing guarantees: values are returned exactly where they are expected. */
  ghost predicate ReturnsOk(u: Unit) {
    forall b {:trigger ReturnsAt(u, b)} :: b in u.fn.cfg.blocks ==> ReturnsAt(u, b)
  }

  /**
   * What lives across the call at instruction i is kept on the stack, where a
   * second activation of the function cannot overwrite it.
   */
  ghost predicate KeptOnStack(u: Unit, live: LiveInfo, b: BlockId, i: nat)
    requires b in u.fn.cfg.blocks && b in live.liveOut && i < |u.fn.cfg.blocks[b].instructions|
  {
    var block := u.fn.cfg.blocks[b];
    && !u.fn.isExternal
    && forall s :: s in LiveBefore(block.instructions[i + 1..], block.terminator, live.liveOut[b]) ==>
         s in Defs(block.instructions[i]) || OnStack(u.alloc, s)
  }

  /** What a function reaches contains itself, and what each of its members reaches. */
  ghost predicate ReachOk(img: Image, fn: FnId) {
    && fn in img.reach && fn in img.reach[fn]
    && forall f :: f in img.reach[fn] ==> f in img.reach && img.reach[f] <= img.reach[fn]
  }

  /**
   * Calls go to internal functions and use their results as typed. Where a call
   * may come back to its own function, everything that lives across it is on the stack.
   */
  ghost predicate CallsOk(img: Image, fn: FnId)
    requires fn in img.units && fn in img.live && fn in img.reach
    requires img.live[fn].liveOut.Keys == img.units[fn].fn.cfg.blocks.Keys
  {
    forall b, i {:trigger CallOk(img, fn, b, i)} ::
      b in img.units[fn].fn.cfg.blocks && 0 <= i < |img.units[fn].fn.cfg.blocks[b].instructions| ==>
        CallOk(img, fn, b, i)
  }

  ghost predicate CallOk(img: Image, fn: FnId, b: BlockId, i: nat)
    requires fn in img.units && fn in img.live && fn in img.reach
    requires b in img.units[fn].fn.cfg.blocks && b in img.live[fn].liveOut
    requires i < |img.units[fn].fn.cfg.blocks[b].instructions|
  {
    var inst := img.units[fn].fn.cfg.blocks[b].instructions[i];
    inst.Call? && inst.target.Internal? ==>
      var g := inst.target.fn;
      && g in img.units && g in img.reach && g in img.reach[fn]
      && (fn in img.reach[g] ==> KeptOnStack(img.units[fn], img.live[fn], b, i))
      && !img.units[g].fn.isExternal
      && img.units[g].fn.returnsValue == inst.result.Some?
  }

  /** A parameter that lives in memory is never stored there by an internal entry. */
  ghost predicate ParametersOk(u: Unit, live: LiveInfo)
    requires u.fn.cfg.entry in live.liveIn
  {
    && Distinct(u.fn.parameters)
    && (!u.fn.isExternal ==> forall s :: s in live.liveIn[u.fn.cfg.entry] ==> OnStack(u.alloc, s))
  }

  ghost predicate UnitOk(img: Image, fn: FnId) {
    && fn in img.units && fn in img.live && fn in img.sizes && ReachOk(img, fn)
    && OrderOk(img.units[fn])
    && LiveOk(img.units[fn], img.live[fn])
    && LayoutsOk(img.units[fn], img.live[fn])
    && SlotsOk(img.units[fn], img.live[fn], img.sizes[fn])
    && ElseCovered(img.units[fn])
    && NegateFree(img.units[fn])
    && ReturnsOk(img.units[fn])
    && ParametersOk(img.units[fn], img.live[fn])
    && CallsOk(img, fn)
  }

  // ---------------------------------------------------------------------------
  // Conditions on the whole image
  // ---------------------------------------------------------------------------

  ghost predicate FrameFits(img: Image, fn: FnId) {
    fn in img.units && fn in img.sizes && img.units[fn].base + 32 * img.sizes[fn] <= 0x1_0000_0000_0000_0000
  }

  ghost predicate FramesApart(img: Image, f: FnId, g: FnId) {
    f in img.units && g in img.units && f in img.sizes && g in img.sizes && f != g ==>
      img.units[f].base + 32 * img.sizes[f] <= img.units[g].base ||
      img.units[g].base + 32 * img.sizes[g] <= img.units[f].base
  }

  /** Frames lie below 2^64 and do not overlap. */
  ghost predicate FramesOk(img: Image) {
    && (forall fn {:trigger FrameFits(img, fn)} :: fn in img.units ==> FrameFits(img, fn))
    && (forall f, g {:trigger FramesApart(img, f, g)} :: FramesApart(img, f, g))
  }

  /** A function's code, compiled without dropping a DUP, sits behind its entry mark. */
  ghost predicate Placed(img: Image, fn: FnId) {
    && fn in img.units && fn in img.firsts && fn in img.starts && fn in img.calls
    && img.calls[fn].parameters == img.units[fn].fn.parameters
    && FunctionCode(img.units[fn], img.calls, img.firsts[fn]).Ok?
    && FunctionCode(img.units[fn], img.calls, img.firsts[fn]).value.whole
    && CodeAt(img.code, img.starts[fn],
              [Mark(img.calls[fn].entryLabel)] + FunctionCode(img.units[fn], img.calls, img.firsts[fn]).value.code)
  }

  /** Labels are unambiguous and two bytes address all of the code. */
  ghost predicate CodeOk(code: seq<Asm>) {
    UniqueMarks(code) && CodeSize(code) <= ADDRESS_LIMIT
  }

  /** What is asked of an image: of its code, of its frames, and of each function. */
  datatype Aspect = OfCode | OfFrames | OfFunction(fn: FnId)

  ghost predicate Holds(img: Image, aspect: Aspect) {
    match aspect
    case OfCode => CodeOk(img.code)
    case OfFrames => FramesOk(img)
    case OfFunction(fn) => fn in img.units ==> UnitOk(img, fn) && Placed(img, fn)
  }

  ghost predicate Good(img: Image) {
    forall aspect :: Holds(img, aspect)
  }

  lemma GoodFunction(img: Image, fn: FnId)
    requires Good(img) && fn in img.units
    ensures UnitOk(img, fn) && Placed(img, fn)
  {
    assert Holds(img, OfFunction(fn));
  }

  lemma GoodCode(img: Image)
    requires Good(img)
    ensures CodeOk(img.code)
  {
    assert Holds(img, OfCode);
  }

  lemma GoodFrames(img: Image)
    requires Good(img)
    ensures FramesOk(img)
  {
    assert Holds(img, OfFrames);
  }

  // ---------------------------------------------------------------------------
  // Memory frames
  // ---------------------------------------------------------------------------

  lemma OffsetInFrame(base: nat, size: nat, s: Slot)
    requires base + 32 * size <= 0x1_0000_0000_0000_0000 && s < size
    ensures MemoryOffset(base, s) == base + 32 * s
  {
  }

  /** Different slots of one frame, and slots of different frames, have different words. */
  lemma OffsetsApart(img: Image, f: FnId, g: FnId, d: Slot, s: Slot)
    requires FramesOk(img) && f in img.units && g in img.units && f in img.sizes && g in img.sizes
    requires d < img.sizes[f] && s < img.sizes[g]
    requires f != g || d != s
    ensures MemoryOffset(img.units[f].base, d) != MemoryOffset(img.units[g].base, s)
  {
    assert FrameFits(img, f) && FrameFits(img, g) && FramesApart(img, f, g);
    OffsetInFrame(img.units[f].base, img.sizes[f], d);
    OffsetInFrame(img.units[g].base, img.sizes[g], s);
  }

  // ---------------------------------------------------------------------------
  // Where blocks and labels are
  // ---------------------------------------------------------------------------

  lemma {:induction false} BlockInOrder(u: Unit, ctx: Context, order: seq<BlockId>, next: Label, b: BlockId)
    returns (at: nat, first: Label)
    requires BlocksCode(u, ctx, order, next).Ok? && b in order
    ensures BlockCode(u, ctx, b, first).Ok?
    ensures BlocksCode(u, ctx, order, next).value.whole ==> BlockCode(u, ctx, b, first).value.whole
    ensures CodeAt(BlocksCode(u, ctx, order, next).value.code, at, BlockCode(u, ctx, b, first).value.code)
    ensures order[0] == b ==> at == 0
    decreases |order|
  {
    hide BlockCode;
    var whole := BlocksCode(u, ctx, order, next).value.code;
    var head := BlockCode(u, ctx, order[0], next).value;
    var tail := BlocksCode(u, ctx, order[1..], head.next).value;
    if order[0] == b {
      at, first := 0, next;
      assert whole[..|head.code|] == head.code;
    } else {
      assert order == [order[0]] + order[1..];
      var i;
      i, first := BlockInOrder(u, ctx, order[1..], head.next, b);
      at := |head.code| + i;
      var part := BlockCode(u, ctx, b, first).value.code;
      assert whole[at..at + |part|] == tail.code[i..i + |part|];
    }
  }

  lemma CodeAtInner(code: seq<Asm>, pc: nat, outer: seq<Asm>, at: nat, inner: seq<Asm>)
    requires CodeAt(code, pc, outer) && CodeAt(outer, at, inner)
    ensures CodeAt(code, pc + at, inner)
  {
    forall k | 0 <= k < |inner| ensures code[pc + at + k] == inner[k] {
      assert inner[k] == outer[at..at + |inner|][k] == outer[at + k];
      assert outer[at + k] == code[pc..pc + |outer|][at + k];
    }
  }

  /** Every labelled block's code is in the image; the entry block comes right behind the entry mark. */
  lemma BlockPlace(img: Image, fn: FnId, b: BlockId) returns (pc: nat, next: Label)
    requires Placed(img, fn) && b in img.units[fn].order
    ensures BlockCode(img.units[fn], ContextIn(img, fn), b, next).Ok?
    ensures BlockCode(img.units[fn], ContextIn(img, fn), b, next).value.whole
    ensures CodeAt(img.code, pc, BlockCode(img.units[fn], ContextIn(img, fn), b, next).value.code)
    ensures img.units[fn].order[0] == b ==> pc == img.starts[fn] + 1
  {
    var at;
    at, next := BlockInBody(img.units[fn], img.calls, img.firsts[fn], b);
    BodyPlace(img, fn);
    pc := img.starts[fn] + 1 + at;
    CodeAtInner(img.code, img.starts[fn] + 1, FunctionCode(img.units[fn], img.calls, img.firsts[fn]).value.code,
                at, BlockCode(img.units[fn], ContextIn(img, fn), b, next).value.code);
  }

  lemma BlockInBody(u: Unit, calls: map<FnId, CallInfo>, first: Label, b: BlockId) returns (at: nat, next: Label)
    requires FunctionCode(u, calls, first).Ok? && b in u.order
    ensures BlockCode(u, ContextOf(u, calls, first), b, next).Ok?
    ensures FunctionCode(u, calls, first).value.whole ==> BlockCode(u, ContextOf(u, calls, first), b, next).value.whole
    ensures CodeAt(FunctionCode(u, calls, first).value.code, at,
                   BlockCode(u, ContextOf(u, calls, first), b, next).value.code)
    ensures u.order[0] == b ==> at == 0
  {
    hide BlockCode, BlocksCode;
    at, next := BlockInOrder(u, ContextOf(u, calls, first), u.order, first + |u.order|, b);
  }

  lemma BodyPlace(img: Image, fn: FnId)
    requires Placed(img, fn)
    ensures img.starts[fn] < |img.code| && img.code[img.starts[fn]] == Mark(img.calls[fn].entryLabel)
    ensures CodeAt(img.code, img.starts[fn] + 1, FunctionCode(img.units[fn], img.calls, img.firsts[fn]).value.code)
  {
    var mark := [Mark(img.calls[fn].entryLabel)];
    CodeAtSplit(img.code, img.starts[fn], mark, FunctionCode(img.units[fn], img.calls, img.firsts[fn]).value.code);
    CodeAtHead(img.code, img.starts[fn], mark);
  }

  /** A label's word is the offset of the JUMPDEST behind its mark, and a jump there lands on it. */
  lemma LabelLands(code: seq<Asm>, l: Label, i: nat, j: nat)
    requires UniqueMarks(code) && CodeSize(code) <= ADDRESS_LIMIT
    requires i < j < |code| && code[i] == Mark(l) && code[j] == Do(JUMPDEST)
    requires forall k :: i <= k < j ==> code[k].Mark?
    ensures LabelWord(code, l) == Offset(code, j)
    ensures JumpTarget(code, LabelWord(code, l)) == Some(j)
  {
    MarkIsFound(code, l, i);
    MarksAreEmpty(code, i, j);
    OffsetBound(code, j);
    JumpLands(code, LabelWord(code, l), j);
  }

  lemma OffsetBound(code: seq<Asm>, j: nat)
    requires j < |code| && code[j] == Do(JUMPDEST)
    ensures Offset(code, j) < CodeSize(code)
  {
    OffsetMonotone(code, j, |code|);
    assert code[..|code|] == code;
  }

  lemma {:induction false} MarksAreEmpty(code: seq<Asm>, i: nat, j: nat)
    requires i <= j <= |code|
    requires forall k :: i <= k < j ==> code[k].Mark?
    ensures Offset(code, i) == Offset(code, j)
    decreases j
  {
    if i < j {
      MarksAreEmpty(code, i, j - 1);
      assert code[..j][..j - 1] == code[..j - 1];
    }
  }
}
