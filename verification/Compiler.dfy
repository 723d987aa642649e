/**
 * The back end from lowered functions to bytes (codegen/src/lib.rs): frame bases,
 * labels, and the body of every function. What comes out is an image to which the
 * simulation theorem applies, as soon as its checkable conditions hold.
 */
module Compiler {
  import opened Wrappers
  import opened Sequences
  import opened Evm
  import opened Lowered
  import opened Semantics
  import opened LiveSets
  import opened Graphs
  import opened Traversal
  import opened Liveness
  import opened Allocator
  import opened Codegen
  import opened Assembler
  import opened Builder
  import opened Generator
  import opened LabelProofs
  import opened LabelUses
  import opened Faults
  import opened Image

  /** A lowered function with the slots its registers were mapped to. */
  datatype LoweredFunction = LoweredFunction(id: FnId, fn: Function, slots: set<Slot>)

  ghost predicate SlotsListedAt(f: LoweredFunction, b: BlockId)
    requires b in f.fn.cfg.blocks
  {
    && (forall i :: 0 <= i < |f.fn.cfg.blocks[b].instructions| ==>
          Uses(f.fn.cfg.blocks[b].instructions[i]) + Defs(f.fn.cfg.blocks[b].instructions[i]) <= f.slots)
    && TerminatorUses(f.fn.cfg.blocks[b].terminator) <= f.slots
  }

  /** What the front end hands over: a well-formed graph nothing jumps back into the entry of, over the listed slots. */
  ghost predicate InputOk(f: LoweredFunction) {
    && WellFormed(f.fn.cfg)
    && f.fn.cfg.blocks[f.fn.cfg.entry].predecessors == []
    && ToSet(f.fn.parameters) <= f.slots
    && forall b {:trigger SlotsListedAt(f, b)} :: b in f.fn.cfg.blocks ==> SlotsListedAt(f, b)
  }

  ghost predicate InputsOk(fs: seq<LoweredFunction>) {
    && (forall i :: 0 <= i < |fs| ==> InputOk(fs[i]))
    && (forall i, j :: 0 <= i < j < |fs| ==> fs[i].id != fs[j].id)
  }

  // ---------------------------------------------------------------------------
  // Memory frames
  // ---------------------------------------------------------------------------

  /** The words of a frame: one for each slot number up to the largest, and at least one. */
  ghost predicate FrameWords(slots: set<Slot>, words: nat) {
    && words >= 1 && (forall s :: s in slots ==> s < words)
    && (words == 1 || words - 1 in slots)
  }

  method ComputeFrameSize(slots: set<Slot>) returns (size: nat, ghost words: nat)
    ensures size == 32 * words && FrameWords(slots, words)
  {
    var count: nat := 1;
    var order := AnyOrder(slots);
    for i := 0 to |order|
      invariant FrameWords(ToSet(order[..i]), count)
    {
      PrefixGrows(order, i);
      if order[i] + 1 > count {
        count := order[i] + 1;
      }
    }
    assert order[..|order|] == order && ToSet(order) == slots;
    size, words := count * 32, count;
    assert FrameWords(slots, words);
  }

  /** Bases are the running sum of the frame sizes. */
  ghost predicate Stacked(bases: seq<nat>, words: seq<nat>) {
    && |bases| == |words|
    && forall i, j :: 0 <= i < j < |bases| ==> bases[i] + 32 * words[i] <= bases[j]
  }

  method AssignBases(fs: seq<LoweredFunction>) returns (bases: seq<nat>, ghost words: seq<nat>)
    ensures |bases| == |fs| && Stacked(bases, words)
    ensures forall i :: 0 <= i < |fs| ==> FrameWords(fs[i].slots, words[i])
    ensures forall i :: 0 <= i < |fs| ==> bases[i] == if i == 0 then 0x80 else bases[i - 1] + 32 * words[i - 1]
  {
    bases, words := [], [];
    var current: nat := 0x80;
    for i := 0 to |fs|
      invariant |bases| == i && Stacked(bases, words)
      invariant forall j :: 0 <= j < i ==> FrameWords(fs[j].slots, words[j]) && bases[j] + 32 * words[j] <= current
      invariant current == if i == 0 then 0x80 else bases[i - 1] + 32 * words[i - 1]
      invariant forall j :: 0 <= j < i ==> bases[j] == if j == 0 then 0x80 else bases[j - 1] + 32 * words[j - 1]
    {
      var size, n := ComputeFrameSize(fs[i].slots);
      bases, words := bases + [current], words + [n];
      current := current + size;
    }
  }

  // ---------------------------------------------------------------------------
  // Labels
  // ---------------------------------------------------------------------------

  /** Every function has its own entry label below `limit`, and its parameters are known to callers. */
  ghost predicate CallsKnown(fs: seq<LoweredFunction>, calls: map<FnId, CallInfo>, limit: Label) {
    && (forall i :: 0 <= i < |fs| ==> fs[i].id in calls && calls[fs[i].id].parameters == fs[i].fn.parameters
                                      && calls[fs[i].id].entryLabel < limit)
    && (forall i, j :: 0 <= i < j < |fs| ==> calls[fs[i].id].entryLabel != calls[fs[j].id].entryLabel)
    && (forall fn :: fn in calls ==> exists i :: 0 <= i < |fs| && fs[i].id == fn)
  }

  lemma OneMoreCall(fs: seq<LoweredFunction>, calls: map<FnId, CallInfo>, f: LoweredFunction, l: Label, limit: Label)
    requires CallsKnown(fs, calls, l) && l < limit && forall i :: 0 <= i < |fs| ==> fs[i].id != f.id
    ensures CallsKnown(fs + [f], calls[f.id := CallInfo(l, f.fn.parameters)], limit)
  {
    var calls' := calls[f.id := CallInfo(l, f.fn.parameters)];
    assert (fs + [f])[|fs|] == f;
    forall fn | fn in calls' ensures exists i :: 0 <= i < |fs + [f]| && (fs + [f])[i].id == fn {
      if fn != f.id {
        var i :| 0 <= i < |fs| && fs[i].id == fn;
        assert (fs + [f])[i].id == fn;
      }
    }
  }

  /** Entry, prologue and continuation labels of every function, before any body is emitted. */
  method ReserveEntryLabels(fs: seq<LoweredFunction>, b: BytecodeBuilder) returns (calls: map<FnId, CallInfo>)
    requires b.Valid() && InputsOk(fs)
    modifies b`nextLabelId
    ensures b.Valid() && b.nextLabelId == old(b.nextLabelId) + 3 * |fs|
    ensures CallsKnown(fs, calls, b.nextLabelId)
    ensures forall i :: 0 <= i < |fs| ==> calls[fs[i].id].entryLabel == old(b.nextLabelId) + 3 * i
  {
    hide StandsFor, InputOk;
    calls := map[];
    for i := 0 to |fs|
      invariant b.Valid() && b.nextLabelId == old(b.nextLabelId) + 3 * i
      invariant CallsKnown(fs[..i], calls, b.nextLabelId)
      invariant forall j :: 0 <= j < i ==> calls[fs[..i][j].id].entryLabel == old(b.nextLabelId) + 3 * j
    {
      var entryLabel := b.NewLabel();
      var prologueLabel := b.NewLabel();
      var continuationLabel := b.NewLabel();
      assert fs[..i + 1] == fs[..i] + [fs[i]];
      OneMoreCall(fs[..i], calls, fs[i], entryLabel, b.nextLabelId);
      calls := calls[fs[i].id := CallInfo(entryLabel, fs[i].fn.parameters)];
    }
    assert fs[..|fs|] == fs;
  }

  // ---------------------------------------------------------------------------
  // One function
  // ---------------------------------------------------------------------------

  /** What the analyses guarantee of a unit. */
  ghost predicate Analyzed(u: Unit, live: LiveInfo) {
    && OrderOk(u) && Solution(u.fn.cfg, live) && LayoutsOk(u, live)
    && (forall b, s :: b in u.fn.cfg.blocks ==> (s in live.liveIn[b] <==> LiveInto(u.fn.cfg, b, s)))
    && SearchOrder(GraphOf(u.fn.cfg), u.order) && EdgesForward(GraphOf(u.fn.cfg), u.order)
    && Allocated(u.fn.cfg, live, u.alloc)
    && forall b :: b in u.order ==>
         |Layout(u.alloc, b)| <= MAX_STACK_REGS && PointsApart(u.fn.cfg, live, u.alloc.assignment, b)
  }

  lemma AnalysisDone(f: LoweredFunction, base: nat, order: seq<BlockId>, live: LiveInfo, alloc: Allocation)
    requires InputOk(f) && SearchOrder(GraphOf(f.fn.cfg), order) && Solution(f.fn.cfg, live)
    requires EdgesForward(GraphOf(f.fn.cfg), order) && Allocated(f.fn.cfg, live, alloc)
    requires forall b, s :: b in f.fn.cfg.blocks ==> (s in live.liveIn[b] <==> LiveInto(f.fn.cfg, b, s))
    requires alloc.entryLayout.Keys == f.fn.cfg.blocks.Keys
    requires forall b :: b in f.fn.cfg.blocks ==> LayoutOf(alloc.entryLayout[b], live.liveIn[b], alloc.assignment)
    requires forall b :: b in f.fn.cfg.blocks && Reaches(GraphOf(f.fn.cfg), f.fn.cfg.entry, b) ==>
               |alloc.entryLayout[b]| <= MAX_STACK_REGS && PointsApart(f.fn.cfg, live, alloc.assignment, b)
    ensures Analyzed(Unit(f.fn, base, order, alloc), live)
  {
    hide LiveInto, EquationsAt, Reaches, PointsApart, OrderOk, LayoutAt, InputOk, Allocated, EdgesForward;
    var u := Unit(f.fn, base, order, alloc);
    OrderIsOk(f, u);
    forall b | b in f.fn.cfg.blocks ensures LayoutAt(u, live, b) {
      LayoutIs(u, live, b);
    }
    assert forall b :: b in order ==> b in GraphOf(f.fn.cfg).succ;
    forall b | b in order
      ensures |Layout(alloc, b)| <= MAX_STACK_REGS && PointsApart(f.fn.cfg, live, alloc.assignment, b)
    {
      assert Reaches(GraphOf(f.fn.cfg), f.fn.cfg.entry, b);
    }
  }

  lemma OrderIsOk(f: LoweredFunction, u: Unit)
    requires InputOk(f) && u.fn == f.fn && SearchOrder(GraphOf(f.fn.cfg), u.order)
    ensures OrderOk(u)
  {
    hide Reaches, Distinct, SlotsListedAt;
  }

  lemma LayoutIs(u: Unit, live: LiveInfo, b: BlockId)
    requires b in live.liveIn && b in u.alloc.entryLayout
    requires LayoutOf(u.alloc.entryLayout[b], live.liveIn[b], u.alloc.assignment)
    ensures LayoutAt(u, live, b)
  {
  }

  /** `generate_function`: order the blocks, analyze, allocate, emit. */
  method GenerateFunction(f: LoweredFunction, base: nat, calls: map<FnId, CallInfo>, b: BytecodeBuilder)
    returns (r: Result<()>, ghost u: Unit, ghost live: LiveInfo)
    requires b.Valid() && InputOk(f)
    modifies b`code, b`items, b`labels, b`pendingJumps, b`nextLabelId
    ensures b.Valid() && u.fn == f.fn && u.base == base && Analyzed(u, live)
    ensures PieceEmitted(r, b.nextLabelId, FunctionCode(u, calls, old(b.nextLabelId)), old(b.items), b.items)
  {
    hide StandsFor, InputOk, Analyzed, LiveInto, Solution, LayoutOf, PointsApart, Reaches, SearchOrder, FunctionCode,
        WellFormed, Allocated, EdgesForward, FirstFit;
    InputGraph(f);
    var order := ReversePostOrder(GraphOf(f.fn.cfg));
    var info := AnalyzeLiveness(f.fn.cfg);
    live := info;
    var alloc, _, _ := Allocate(f.fn.cfg, info);
    AnalysisDone(f, base, order, info, alloc);
    u := Unit(f.fn, base, order, alloc);
    r := EmitFunction(Unit(f.fn, base, order, alloc), calls, b);
  }

  /** The order holds every block it jumps to. */
  lemma OrderIsClosed(u: Unit, live: LiveInfo)
    requires Analyzed(u, live)
    ensures OrderClosed(u)
  {
    hide LiveInto, PointsApart, Solution, LayoutsOk, Reaches, Distinct, Allocated, EdgesForward;
    var g := GraphOf(u.fn.cfg);
    GraphLinked(u.fn.cfg);
    forall b | b in u.order
      ensures b in u.fn.cfg.blocks && forall c :: c in TerminatorTargets(u.fn.cfg.blocks[b].terminator) ==> c in u.order
    {
      forall c | c in TerminatorTargets(u.fn.cfg.blocks[b].terminator) ensures c in u.order {
        assert c in u.fn.cfg.blocks[b].successors;
        assert Edge(g, b, c);
        ReachesFurther(g, g.entry, b, c);
      }
    }
  }

  /**
   * Code generation stops at this function: its first-fit allocation leaves a value
   * out of reach, or it has a string, a call or a parameter list that has no code.
   */
  ghost predicate StopsAt(f: LoweredFunction, calls: map<FnId, CallInfo>, e: CodegenError) {
    ProgramFault(e) && exists u: Unit, live, first :: u.fn == f.fn && Stops(u, live, calls, first, e)
  }

  ghost predicate Stops(u: Unit, live: LiveInfo, calls: map<FnId, CallInfo>, first: Label, e: CodegenError) {
    Analyzed(u, live) && FunctionCode(u, calls, first) == Err(e) && e in FunctionFaults(u, calls)
  }

  /** No function of the image has a fault. */
  ghost predicate Faultless(img: Image) {
    forall fn :: fn in img.units ==> FunctionFaults(img.units[fn], img.calls) == {}
  }

  /** What is linked has code, so it has no fault. */
  lemma LinkedIsFaultless(img: Image, fs: seq<LoweredFunction>)
    requires Linked(img, fs)
    ensures Faultless(img)
  {
    hide LinkedAt, UniqueMarks, FramesApart, FunctionFaults;
    forall fn | fn in img.units ensures FunctionFaults(img.units[fn], img.calls) == {} {
      LinkedHasNone(img, fn);
    }
  }

  lemma LinkedHasNone(img: Image, fn: FnId)
    requires LinkedAt(img, fn)
    ensures FunctionFaults(img.units[fn], img.calls) == {}
  {
    OrderIsClosed(img.units[fn], img.live[fn]);
    FunctionExplained(img.units[fn], img.calls, img.firsts[fn]);
    hide Analyzed, SlotsOk, FunctionFaults, FunctionCode, CodeAt;
  }

  /** Some function stops, called by the labels that were reserved for all of them. */
  ghost predicate SomeStops(fs: seq<LoweredFunction>, e: CodegenError) {
    exists f, calls, limit :: f in fs && CallsKnown(fs, calls, limit) && StopsAt(f, calls, e)
  }

  function EntryLabels(fs: seq<LoweredFunction>, calls: map<FnId, CallInfo>): set<Label>
    requires forall i :: 0 <= i < |fs| ==> fs[i].id in calls
  {
    set i | 0 <= i < |fs| :: calls[fs[i].id].entryLabel
  }

  lemma EntriesAreKnown(fs: seq<LoweredFunction>, calls: map<FnId, CallInfo>, limit: Label)
    requires CallsKnown(fs, calls, limit)
    ensures EntriesKnown(calls, EntryLabels(fs, calls))
  {
  }

  lemma StoppedAt(
      f: LoweredFunction, u: Unit, live: LiveInfo, calls: map<FnId, CallInfo>, first: Label, e: CodegenError)
    requires u.fn == f.fn && Analyzed(u, live) && FunctionCode(u, calls, first) == Err(e)
    requires ProgramFault(e)
    ensures StopsAt(f, calls, e)
  {
    OrderIsClosed(u, live);
    FunctionExplained(u, calls, first);
    hide Analyzed, FunctionCode, FunctionFaults;
    assert Stops(u, live, calls, first, e);
  }

  lemma StillClosed(code: seq<Asm>, l: Label, body: seq<Asm>, known: set<Label>)
    requires Closed(code, known) && Closed(body, known)
    ensures Closed(code + [Mark(l)] + body, known)
  {
    hide Closed;
    Unlabelled([Mark(l)], known);
    ClosedJoin(code, [Mark(l)], known);
    ClosedJoin(code + [Mark(l)], body, known);
  }

  /** Once all functions are out, every pushed label is marked. */
  lemma AllResolved(img: Image, fs: seq<LoweredFunction>, bases: seq<nat>, words: seq<nat>, code: seq<Asm>)
    requires |fs| == |bases| == |words| && Progress(img, fs, |fs|, bases, words, code)
    requires (forall i :: 0 <= i < |fs| ==> fs[i].id in img.calls) && Closed(code, EntryLabels(fs, img.calls))
    ensures Resolved(code)
  {
    hide Analyzed, FunctionCode;
    forall i | 0 <= i < |code| && code[i].PushLabel? ensures MarkIndex(code, code[i].target).Some? {
      if code[i].target in EntryLabels(fs, img.calls) {
        var k: nat :| k < |fs| && img.calls[fs[k].id].entryLabel == code[i].target;
        assert Done(img, fs[k], bases[k], words[k], code);
        EntryIsMarked(code, img.starts[fs[k].id], code[i].target,
                      FunctionCode(img.units[fs[k].id], img.calls, img.firsts[fs[k].id]).value.code);
      }
    }
  }

  lemma EntryIsMarked(code: seq<Asm>, at: nat, l: Label, body: seq<Asm>)
    requires CodeAt(code, at, [Mark(l)] + body)
    ensures Mark(l) in code
  {
    assert code[at..at + |[Mark(l)] + body|][0] == Mark(l);
  }

  lemma InputGraph(f: LoweredFunction)
    requires InputOk(f)
    ensures WellFormed(f.fn.cfg) && WellLinked(GraphOf(f.fn.cfg))
  {
    GraphLinked(f.fn.cfg);
  }

  // ---------------------------------------------------------------------------
  // All functions
  // ---------------------------------------------------------------------------

  /** A function's entry mark and body are in the code. */
  ghost predicate InCode(
      code: seq<Asm>, u: Unit, calls: map<FnId, CallInfo>, entryLabel: Label, first: Label, start: nat)
  {
    && FunctionCode(u, calls, first).Ok?
    && CodeAt(code, start, [Mark(entryLabel)] + FunctionCode(u, calls, first).value.code)
  }

  /** Marks are distinct, below `next`, and the functions from k on are not marked yet. */
  ghost predicate MarksSoFar(
      marks: seq<Label>, fs: seq<LoweredFunction>, k: nat, calls: map<FnId, CallInfo>, next: Label)
    requires k <= |fs|
  {
    && CallsKnown(fs, calls, next)
    && Distinct(marks) && (forall l :: l in marks ==> l < next)
    && forall i :: k <= i < |fs| ==> calls[fs[i].id].entryLabel !in marks
  }

  lemma {:induction false} MarksNext(
      marks: seq<Label>, fs: seq<LoweredFunction>, k: nat, calls: map<FnId, CallInfo>, next: Label,
      body: seq<Label>, next': Label)
    requires k < |fs| && MarksSoFar(marks, fs, k, calls, next)
    requires next <= next' && Distinct(body) && forall l :: l in body ==> next <= l < next'
    ensures MarksSoFar(marks + [calls[fs[k].id].entryLabel] + body, fs, k + 1, calls, next')
  {
    var l := calls[fs[k].id].entryLabel;
    DistinctJoin(marks, [l]);
    DistinctJoin(marks + [l], body);
    forall i | k + 1 <= i < |fs| ensures calls[fs[i].id].entryLabel !in marks + [l] + body {
      assert calls[fs[i].id].entryLabel < next;
    }
  }

  lemma CodeAtGrows(code: seq<Asm>, more: seq<Asm>, at: nat, part: seq<Asm>)
    requires CodeAt(code, at, part)
    ensures CodeAt(code + more, at, part)
  {
    assert (code + more)[at..at + |part|] == code[at..at + |part|];
  }

  /** What is known of the first k functions once their code is out. */
  ghost predicate Progress(
      img: Image, fs: seq<LoweredFunction>, k: nat, bases: seq<nat>, words: seq<nat>, code: seq<Asm>)
    requires k <= |fs| == |bases| == |words|
  {
    && (forall i :: 0 <= i < k ==> fs[i].id in img.units)
    && (forall fn :: fn in img.units ==> exists i :: 0 <= i < k && fs[i].id == fn)
    && (forall i :: 0 <= i < k ==> Done(img, fs[i], bases[i], words[i], code))
  }

  ghost predicate Done(img: Image, f: LoweredFunction, base: nat, words: nat, code: seq<Asm>) {
    && f.id in img.units && f.id in img.calls && f.id in img.firsts && f.id in img.starts && f.id in img.sizes
        && f.id in img.live
    && img.units[f.id].fn == f.fn && img.units[f.id].base == base && img.sizes[f.id] == words
    && Analyzed(img.units[f.id], img.live[f.id])
    && InCode(code, img.units[f.id], img.calls, img.calls[f.id].entryLabel, img.firsts[f.id], img.starts[f.id])
  }

  function Added(img: Image, id: FnId, u: Unit, live: LiveInfo, words: nat, first: Label, start: nat): Image {
    img.(units := img.units[id := u], live := img.live[id := live], sizes := img.sizes[id := words],
         firsts := img.firsts[id := first], starts := img.starts[id := start])
  }

  lemma ProgressNext(
      img: Image, fs: seq<LoweredFunction>, k: nat, bases: seq<nat>, words: seq<nat>, code: seq<Asm>,
      u: Unit, live: LiveInfo, first: Label, body: seq<Asm>)
    requires k < |fs| == |bases| == |words| && Progress(img, fs, k, bases, words, code)
    requires forall i, j :: 0 <= i < j < |fs| ==> fs[i].id != fs[j].id
    requires fs[k].id in img.calls && u.fn == fs[k].fn && u.base == bases[k] && Analyzed(u, live)
    requires FunctionCode(u, img.calls, first).Ok? && FunctionCode(u, img.calls, first).value.code == body
    ensures var l := img.calls[fs[k].id].entryLabel;
            Progress(Added(img, fs[k].id, u, live, words[k], first, |code|), fs, k + 1, bases, words,
                code + [Mark(l)] + body)
  {
    hide Analyzed, FunctionCode, CodeAt;
    var id := fs[k].id;
    var l := img.calls[id].entryLabel;
    var img', code' := Added(img, id, u, live, words[k], first, |code|), code + [Mark(l)] + body;
    forall i | 0 <= i < k + 1 ensures Done(img', fs[i], bases[i], words[i], code') {
      if i < k {
        assert Done(img, fs[i], bases[i], words[i], code);
        assert fs[i].id != id;
        var f := fs[i].id;
        CodeAtGrows(code, [Mark(l)] + body, img.starts[f],
                    [Mark(img.calls[f].entryLabel)] + FunctionCode(img.units[f], img.calls, img.firsts[f]).value.code);
        assert code + ([Mark(l)] + body) == code';
      } else {
        AtEnd(code, l, body);
      }
    }
    forall fn | fn in img'.units ensures exists i :: 0 <= i < k + 1 && fs[i].id == fn {
      if fn == id {
        assert fs[k].id == fn;
      } else {
        var i :| 0 <= i < k && fs[i].id == fn;
      }
    }
  }

  lemma AtEnd(code: seq<Asm>, l: Label, body: seq<Asm>)
    ensures CodeAt(code + [Mark(l)] + body, |code|, [Mark(l)] + body)
  {
    assert code + [Mark(l)] + body == code + ([Mark(l)] + body);
  }

  /** The code of the first k functions, each behind its entry mark, one after the other. */
  ghost function CodeOfFunctions(img: Image, fs: seq<LoweredFunction>, k: nat): seq<Asm>
    requires k <= |fs|
  {
    if k == 0 then []
    else CodeOfFunctions(img, fs, k - 1) + CodeOfOne(img, fs[k - 1].id)
  }

  ghost function CodeOfOne(img: Image, id: FnId): seq<Asm> {
    if id in img.units && id in img.calls && id in img.firsts then
      match FunctionCode(img.units[id], img.calls, img.firsts[id])
      case Ok(piece) => [Mark(img.calls[id].entryLabel)] + piece.code
      case Err(_) => []
    else []
  }

  /** A function does not change the code of those before it. */
  lemma {:induction false} CodeStays(
      img: Image, fs: seq<LoweredFunction>, k: nat, id: FnId, u: Unit, live: LiveInfo, words: nat, first: Label,
      start: nat)
    requires k <= |fs| && forall i :: 0 <= i < k ==> fs[i].id != id
    ensures CodeOfFunctions(Added(img, id, u, live, words, first, start), fs, k) == CodeOfFunctions(img, fs, k)
  {
    hide FunctionCode;
    if k > 0 {
      CodeStays(img, fs, k - 1, id, u, live, words, first, start);
    }
  }

  lemma NoCode(img: Image, fs: seq<LoweredFunction>, before: seq<Asm>)
    ensures before == before + CodeOfFunctions(img, fs, 0)
  {
  }

  lemma CodeNext(
      img: Image, fs: seq<LoweredFunction>, k: nat, u: Unit, live: LiveInfo, words: nat, first: Label, start: nat,
      before: seq<Asm>, code: seq<Asm>)
    requires k < |fs| && fs[k].id in img.calls && forall i, j :: 0 <= i < j < |fs| ==> fs[i].id != fs[j].id
    requires code == before + CodeOfFunctions(img, fs, k) && FunctionCode(u, img.calls, first).Ok?
    ensures code + [Mark(img.calls[fs[k].id].entryLabel)] + FunctionCode(u, img.calls, first).value.code
         == before + CodeOfFunctions(Added(img, fs[k].id, u, live, words, first, start), fs, k + 1)
  {
    hide FunctionCode, CodeOfOne, Added;
    CodeStays(img, fs, k, fs[k].id, u, live, words, first, start);
    CodeOfNew(img, fs[k].id, u, live, words, first, start);
    var mark, body := [Mark(img.calls[fs[k].id].entryLabel)], FunctionCode(u, img.calls, first).value.code;
    Regrouped(before, CodeOfFunctions(img, fs, k), mark, body);
  }

  lemma CodeOfNew(img: Image, id: FnId, u: Unit, live: LiveInfo, words: nat, first: Label, start: nat)
    requires id in img.calls && FunctionCode(u, img.calls, first).Ok?
    ensures CodeOfOne(Added(img, id, u, live, words, first, start), id)
         == [Mark(img.calls[id].entryLabel)] + FunctionCode(u, img.calls, first).value.code
  {
    hide FunctionCode;
  }

  lemma Regrouped<T>(a: seq<T>, b: seq<T>, c: seq<T>, d: seq<T>)
    ensures a + b + c + d == a + (b + (c + d))
  {
  }

  lemma {:induction false} CodeIgnoresCode(img: Image, fs: seq<LoweredFunction>, k: nat, code: seq<Asm>)
    requires k <= |fs|
    ensures CodeOfFunctions(img.(code := code), fs, k) == CodeOfFunctions(img, fs, k)
  {
    hide FunctionCode;
    if k > 0 {
      CodeIgnoresCode(img, fs, k - 1, code);
    }
  }

  /** The frame of a function: where it starts and how many words it has. */
  ghost predicate FrameIs(img: Image, f: LoweredFunction, base: nat, words: nat) {
    f.id in img.units && f.id in img.sizes && img.units[f.id].base == base && img.sizes[f.id] == words
    && FrameWords(f.slots, words)
  }

  /**
   * Behind what was there before stands the code of all functions in their order, and
   * their frames lie one behind the other from 0x80 on, each as long as it needs to be.
   */
  ghost predicate LaidOut(img: Image, fs: seq<LoweredFunction>, before: seq<Asm>) {
    && img.code == before + CodeOfFunctions(img, fs, |fs|)
    && exists bases, words :: FramesLaidOut(img, fs, bases, words)
  }

  ghost predicate FramesLaidOut(img: Image, fs: seq<LoweredFunction>, bases: seq<nat>, words: seq<nat>) {
    && |bases| == |words| == |fs|
    && (forall i :: 0 <= i < |fs| ==> FrameIs(img, fs[i], bases[i], words[i]))
    && forall i :: 0 <= i < |fs| ==> bases[i] == if i == 0 then 0x80 else bases[i - 1] + 32 * words[i - 1]
  }

  lemma FramesAre(img: Image, fs: seq<LoweredFunction>, bases: seq<nat>, words: seq<nat>, code: seq<Asm>)
    requires |bases| == |words| == |fs| && Progress(img, fs, |fs|, bases, words, code)
    requires forall i :: 0 <= i < |fs| ==> FrameWords(fs[i].slots, words[i])
    requires forall i :: 0 <= i < |fs| ==> bases[i] == if i == 0 then 0x80 else bases[i - 1] + 32 * words[i - 1]
    ensures FramesLaidOut(img, fs, bases, words)
  {
    hide Analyzed, InCode, FrameWords;
    forall i | 0 <= i < |fs| ensures FrameIs(img, fs[i], bases[i], words[i]) {
      assert Done(img, fs[i], bases[i], words[i], code);
    }
  }

  lemma AreLaidOut(
      img: Image, fs: seq<LoweredFunction>, bases: seq<nat>, words: seq<nat>, before: seq<Asm>, code: seq<Asm>)
    requires FramesLaidOut(img, fs, bases, words) && code == before + CodeOfFunctions(img, fs, |fs|)
    ensures LaidOut(img.(code := code), fs, before)
  {
    hide FrameWords, CodeOfFunctions;
    CodeIgnoresCode(img, fs, |fs|, code);
    forall i | 0 <= i < |fs| ensures FrameIs(img.(code := code), fs[i], bases[i], words[i]) {
      assert FrameIs(img, fs[i], bases[i], words[i]);
    }
    assert FramesLaidOut(img.(code := code), fs, bases, words);
  }

  /**
   * Emit every function behind its entry mark. The builder may already hold other
   * code, such as a dispatcher, that does not mark the functions' entries.
   */
  method EmitFunctions(
      fs: seq<LoweredFunction>, calls: map<FnId, CallInfo>, ghost reach: map<FnId, set<FnId>>, b: BytecodeBuilder)
    returns (r: Result<()>, ghost img: Image)
    requires b.Valid() && InputsOk(fs) && MarksSoFar(Marks(b.items), fs, 0, calls, b.nextLabelId)
    modifies b`code, b`items, b`labels, b`pendingJumps, b`nextLabelId
    ensures b.Valid()
    ensures r.Ok? ==> img.code == b.items && img.calls == calls && img.reach == reach && Linked(img, fs)
    ensures r.Ok? ==> LaidOut(img, fs, old(b.items))
    ensures r.Ok? && old(b.items) == [] ==> Resolved(b.items)
    ensures r.Err? ==> exists f :: f in fs && StopsAt(f, calls, r.error)
  {
    hide StandsFor, InputOk, Analyzed, FunctionCode, MarksSoFar, Marks, Progress, Stacked, FrameWords, Linked, Closed,
        Resolved;
    hide EntryLabels, EntriesKnown, OrderClosed, StopsAt, CodeOfFunctions, FramesLaidOut, LaidOut;
    var bases, words := AssignBases(fs);
    ghost var start := b.items;
    CallsAreKnown(Marks(start), fs, calls, b.nextLabelId);
    ghost var entries := EntryLabels(fs, calls);
    Unlabelled([], entries);
    img := Image(map[], calls, map[], map[], map[], map[], reach, []);
    NoProgress(img, fs, bases, words, b.items);
    NoCode(img, fs, start);
    var k := 0;
    while k < |fs|
      invariant k <= |fs| && b.Valid() && img.calls == calls && img.reach == reach
      invariant MarksSoFar(Marks(b.items), fs, k, calls, b.nextLabelId)
      invariant Progress(img, fs, k, bases, words, b.items)
      invariant b.items == start + CodeOfFunctions(img, fs, k)
      invariant start == [] ==> Closed(b.items, entries)
    {
      ghost var before, first := b.items, b.nextLabelId;
      CallKnown(Marks(before), fs, k, calls, first);
      b.MarkLabel(calls[fs[k].id].entryLabel);
      ghost var u, live;
      r, u, live := GenerateFunction(fs[k], bases[k], calls, b);
      OrderIsClosed(u, live);
      FunctionGood(u, calls, first, entries);
      if r.Err? {
        StoppedAt(fs[k], u, live, calls, first, r.error);
        return;
      }
      ghost var body := FunctionCode(u, calls, first).value.code;
      if start == [] {
        StillClosed(before, calls[fs[k].id].entryLabel, body, entries);
      }
      BodyMarks(u, live, calls, first, b.nextLabelId);
      AddMarks(before, calls[fs[k].id].entryLabel, body);
      MarksNext(Marks(before), fs, k, calls, first, Marks(body), b.nextLabelId);
      ProgressNext(img, fs, k, bases, words, before, u, live, first, body);
      CodeNext(img, fs, k, u, live, words[k], first, |before|, start, before);
      img := Added(img, fs[k].id, u, live, words[k], first, |before|);
      k := k + 1;
    }
    r := Ok(());
    if start == [] {
      AllResolved(img, fs, bases, words, b.items);
    }
    FramesAre(img, fs, bases, words, b.items);
    AreLaidOut(img, fs, bases, words, start, b.items);
    ProgressOfCode(img, fs, bases, words, b.items);
    img := img.(code := b.items);
    AllLinked(img, fs, bases, words, b.nextLabelId);
  }

  lemma CallsAreKnown(marks: seq<Label>, fs: seq<LoweredFunction>, calls: map<FnId, CallInfo>, next: Label)
    requires MarksSoFar(marks, fs, 0, calls, next)
    ensures forall i :: 0 <= i < |fs| ==> fs[i].id in calls
    ensures EntriesKnown(calls, EntryLabels(fs, calls))
  {
    EntriesAreKnown(fs, calls, next);
  }

  lemma NoProgress(img: Image, fs: seq<LoweredFunction>, bases: seq<nat>, words: seq<nat>, code: seq<Asm>)
    requires |fs| == |bases| == |words| && img.units == map[]
    ensures Progress(img, fs, 0, bases, words, code)
  {
  }

  lemma ProgressOfCode(img: Image, fs: seq<LoweredFunction>, bases: seq<nat>, words: seq<nat>, code: seq<Asm>)
    requires |fs| == |bases| == |words| && Progress(img, fs, |fs|, bases, words, code)
    ensures Progress(img.(code := code), fs, |fs|, bases, words, code)
  {
    hide Analyzed, InCode;
    forall i | 0 <= i < |fs| ensures Done(img.(code := code), fs[i], bases[i], words[i], code) {
      assert Done(img, fs[i], bases[i], words[i], code);
    }
  }

  lemma CallKnown(marks: seq<Label>, fs: seq<LoweredFunction>, k: nat, calls: map<FnId, CallInfo>, next: Label)
    requires k < |fs| && MarksSoFar(marks, fs, k, calls, next)
    ensures fs[k].id in calls
  {
  }

  lemma BodyMarks(u: Unit, live: LiveInfo, calls: map<FnId, CallInfo>, first: Label, next: Label)
    requires Analyzed(u, live) && FunctionCode(u, calls, first).Ok? && FunctionCode(u, calls, first).value.next == next
    ensures first <= next && Distinct(Marks(FunctionCode(u, calls, first).value.code))
    ensures forall l :: l in Marks(FunctionCode(u, calls, first).value.code) ==> first <= l < next
  {
    hide FunctionCode, Marks;
    FunctionMarks(u, calls, first);
  }

  lemma AddMarks(code: seq<Asm>, l: Label, body: seq<Asm>)
    ensures Marks(code + [Mark(l)] + body) == Marks(code) + [l] + Marks(body)
  {
    MarksAppend(code, [Mark(l)]);
    MarksAppend(code + [Mark(l)], body);
    assert Marks([Mark(l)]) == [l] + Marks([Mark(l)][1..]);
  }

  // ---------------------------------------------------------------------------
  // The image
  // ---------------------------------------------------------------------------

  ghost predicate LinkedAt(img: Image, fn: FnId) {
    && fn in img.units && fn in img.live && fn in img.calls && fn in img.firsts && fn in img.starts && fn in img.sizes
    && Analyzed(img.units[fn], img.live[fn])
    && SlotsOk(img.units[fn], img.live[fn], img.sizes[fn])
    && img.calls[fn].parameters == img.units[fn].fn.parameters
    && InCode(img.code, img.units[fn], img.calls, img.calls[fn].entryLabel, img.firsts[fn], img.starts[fn])
  }

  /** What compiling guarantees: every function is in the code, labels are unambiguous, frames are disjoint. */
  ghost predicate Linked(img: Image, fs: seq<LoweredFunction>) {
    && (forall i :: 0 <= i < |fs| ==> fs[i].id in img.units && img.units[fs[i].id].fn == fs[i].fn)
    && (forall fn :: fn in img.units ==> exists i :: 0 <= i < |fs| && fs[i].id == fn)
    && (forall fn {:trigger LinkedAt(img, fn)} :: fn in img.units ==> LinkedAt(img, fn))
    && UniqueMarks(img.code)
    && (forall f, g {:trigger FramesApart(img, f, g)} :: FramesApart(img, f, g))
  }

  /** Everything read somewhere is listed, so every live slot is. */
  lemma LiveIsListed(f: LoweredFunction, b: BlockId, s: Slot)
    requires InputOk(f) && LiveInto(f.fn.cfg, b, s)
    ensures s in f.slots
  {
    var p :| ReadOnPath(f.fn.cfg, p, s) && p[0] == b;
    var c := p[|p| - 1];
    var block := f.fn.cfg.blocks[c];
    var i :| 0 <= i <= |block.instructions| && ReadsAt(block, i, s) && !WritesBefore(block.instructions, i, s);
    assert SlotsListedAt(f, c);
  }

  lemma SlotsFit(f: LoweredFunction, u: Unit, live: LiveInfo, words: nat)
    requires InputOk(f) && u.fn == f.fn && Analyzed(u, live) && FrameWords(f.slots, words)
    ensures SlotsOk(u, live, words)
  {
    hide LiveInto, WellFormed, OrderOk, LayoutsOk;
    forall b | b in u.fn.cfg.blocks ensures SlotsAt(u, live, words, b) {
      assert SlotsListedAt(f, b);
      assert EquationsAt(u.fn.cfg, live, b);
      forall s | s in live.liveOut[b] ensures s < words {
        var c :| c in u.fn.cfg.blocks[b].successors && c in live.liveIn && s in live.liveIn[c];
        LiveIsListed(f, c, s);
      }
      BelowWords(f, words, b);
    }
    assert forall s :: s in u.fn.parameters ==> s in ToSet(u.fn.parameters);
  }

  lemma BelowWords(f: LoweredFunction, words: nat, b: BlockId)
    requires b in f.fn.cfg.blocks && SlotsListedAt(f, b) && FrameWords(f.slots, words)
    ensures forall i :: 0 <= i < |f.fn.cfg.blocks[b].instructions| ==>
        SlotsBelow(f.fn.cfg.blocks[b].instructions[i], words)
    ensures TerminatorBelow(f.fn.cfg.blocks[b].terminator, words)
  {
    var insts := f.fn.cfg.blocks[b].instructions;
    forall i | 0 <= i < |insts| ensures SlotsBelow(insts[i], words) {
      assert Uses(insts[i]) + Defs(insts[i]) <= f.slots;
    }
  }

  lemma AllLinked(img: Image, fs: seq<LoweredFunction>, bases: seq<nat>, words: seq<nat>, next: Label)
    requires InputsOk(fs) && |fs| == |bases| == |words| && Stacked(bases, words)
    requires forall i :: 0 <= i < |fs| ==> FrameWords(fs[i].slots, words[i])
    requires MarksSoFar(Marks(img.code), fs, |fs|, img.calls, next)
    requires Progress(img, fs, |fs|, bases, words, img.code)
    ensures Linked(img, fs)
  {
    hide InputOk, Done, Stacked, Marks, FrameWords, LinkedAt, UniqueMarks, FramesApart;
    DistinctMarks(img.code);
    forall i | 0 <= i < |fs| ensures LinkedAt(img, fs[i].id) && img.units[fs[i].id].fn == fs[i].fn {
      assert Done(img, fs[i], bases[i], words[i], img.code);
      OneLinked(img, fs, i, bases[i], words[i], next);
    }
    forall f, g ensures FramesApart(img, f, g) {
      if f in img.units && g in img.units {
        var i: nat :| i < |fs| && fs[i].id == f;
        var j: nat :| j < |fs| && fs[j].id == g;
        assert Done(img, fs[i], bases[i], words[i], img.code) && Done(img, fs[j], bases[j], words[j], img.code);
        TwoApart(img, fs, bases, words, i, j);
      } else {
        NothingApart(img, f, g);
      }
    }
  }

  lemma OneLinked(img: Image, fs: seq<LoweredFunction>, i: nat, base: nat, words: nat, next: Label)
    requires i < |fs| && InputOk(fs[i]) && FrameWords(fs[i].slots, words) && CallsKnown(fs, img.calls, next)
    requires Done(img, fs[i], base, words, img.code)
    ensures LinkedAt(img, fs[i].id) && img.units[fs[i].id].fn == fs[i].fn
  {
    hide InputOk, Analyzed, FrameWords, SlotsOk, InCode;
    SlotsFit(fs[i], img.units[fs[i].id], img.live[fs[i].id], words);
  }

  lemma TwoApart(img: Image, fs: seq<LoweredFunction>, bases: seq<nat>, words: seq<nat>, i: nat, j: nat)
    requires i < |fs| && j < |fs| && |fs| == |bases| == |words| && Stacked(bases, words)
    requires Done(img, fs[i], bases[i], words[i], img.code) && Done(img, fs[j], bases[j], words[j], img.code)
    ensures FramesApart(img, fs[i].id, fs[j].id)
  {
    hide Analyzed, InCode;
    if i != j {
      assert bases[i] + 32 * words[i] <= bases[j] || bases[j] + 32 * words[j] <= bases[i];
    }
  }

  lemma NothingApart(img: Image, f: FnId, g: FnId)
    requires f !in img.units || g !in img.units
    ensures FramesApart(img, f, g)
  {
  }

  /** The conditions left to check of one compiled function; each is decidable on the image. */
  ghost predicate AdmissibleAt(img: Image, fn: FnId)
    requires LinkedAt(img, fn)
  {
    && ReachOk(img, fn) && FrameFits(img, fn)
    && img.live[fn].liveIn[img.units[fn].fn.cfg.entry] <= ToSet(img.units[fn].fn.parameters)
    && ElseCovered(img.units[fn]) && NegateFree(img.units[fn]) && ReturnsOk(img.units[fn])
    && ParametersOk(img.units[fn], img.live[fn]) && CallsOk(img, fn)
    && FunctionCode(img.units[fn], img.calls, img.firsts[fn]).value.whole
  }

  ghost predicate Admissible(img: Image, fs: seq<LoweredFunction>)
    requires Linked(img, fs)
  {
    && CodeSize(img.code) <= ADDRESS_LIMIT
    && forall fn {:trigger AdmissibleAt(img, fn)} :: fn in img.units ==> AdmissibleAt(img, fn)
  }

  /** The simulation theorem applies to what the compiler emits. */
  lemma CompiledIsGood(img: Image, fs: seq<LoweredFunction>)
    requires Linked(img, fs) && Admissible(img, fs)
    ensures Good(img)
  {
    forall aspect ensures Holds(img, aspect) {
      match aspect
      case OfCode =>
      case OfFrames => FramesAreOk(img, fs);
      case OfFunction(fn) =>
        if fn in img.units {
          FunctionIsGood(img, fs, fn);
        }
    }
  }

  lemma FramesAreOk(img: Image, fs: seq<LoweredFunction>)
    requires Linked(img, fs) && Admissible(img, fs)
    ensures FramesOk(img)
  {
    hide LinkedAt, UniqueMarks, CodeSize, ElseCovered, NegateFree, ReturnsOk, ParametersOk, CallsOk, FunctionCode;
    forall fn | fn in img.units ensures FrameFits(img, fn) {
      assert AdmissibleAt(img, fn);
    }
  }

  lemma FunctionIsGood(img: Image, fs: seq<LoweredFunction>, fn: FnId)
    requires Linked(img, fs) && Admissible(img, fs) && fn in img.units
    ensures UnitOk(img, fn) && Placed(img, fn)
  {
    hide UniqueMarks, CodeSize, ElseCovered, NegateFree, ReturnsOk, ParametersOk, CallsOk, FunctionCode, FramesApart,
      SlotsOk, LayoutsOk, EquationsAt, LiveInto, CodeAt;
    assert LinkedAt(img, fn) && AdmissibleAt(img, fn);
  }
}
