/**
 * From lowered functions to running bytes: the compiled byte string, run by the
 * machine of the Yellow Paper, does what the source program does.
 */
module EndToEnd {
  import opened Wrappers
  import opened Words
  import opened Bytes
  import opened Evm
  import opened Lowered
  import opened Semantics
  import opened Codegen
  import opened ControlProofs
  import opened Image
  import opened Activations
  import opened ProgramTheorem
  import opened Assembler
  import opened Builder
  import opened ByteMachine
  import opened LabelProofs
  import opened Compiler

  /**
   * Compile functions to a runtime section that starts at byte 0. `reach` says
   * which functions may run while one is active; it does not influence the code.
   */
  method CompileFunctions(fs: seq<LoweredFunction>, ghost reach: map<FnId, set<FnId>>)
    returns (r: Result<seq<Byte>>, ghost img: Image)
    requires InputsOk(fs)
    ensures r.Ok? ==> Linked(img, fs) && img.reach == reach && r.value == Assembled(img.code, None)
    ensures r.Ok? ==> Faultless(img) && LaidOut(img, fs, [])
    ensures r.Err? ==> SomeStops(fs, r.error)
  {
    hide InputsOk, Linked, StandsFor, OperandOf, Encode, Resolved, StopsAt, SomeStops, CallsKnown,
        Faultless, LaidOut;
    var b := new BytecodeBuilder();
    var calls := ReserveEntryLabels(fs, b);
    b.MarkRuntimeStart();
    ghost var limit := b.nextLabelId;
    NothingMarked(fs, calls, b.items, limit);
    var emitted;
    emitted, img := EmitFunctions(fs, calls, reach, b);
    if emitted.Err? {
      Stopped(fs, calls, limit, emitted.error);
      return Err(emitted.error), img;
    }
    LinkedIsFaultless(img, fs);
    AssembledFromZero(b.items);
    r := b.Finalize();
  }

  lemma Stopped(fs: seq<LoweredFunction>, calls: map<FnId, CallInfo>, limit: Label, e: CodegenError)
    requires CallsKnown(fs, calls, limit) && exists f :: f in fs && StopsAt(f, calls, e)
    ensures SomeStops(fs, e)
  {
    hide StopsAt, CallsKnown;
  }

  lemma NothingMarked(fs: seq<LoweredFunction>, calls: map<FnId, CallInfo>, items: seq<Asm>, next: Label)
    requires items == [] && CallsKnown(fs, calls, next)
    ensures MarksSoFar(Marks(items), fs, 0, calls, next)
  {
  }

  /** A runtime section at the start of the code changes no operand. */
  lemma AssembledFromZero(items: seq<Asm>)
    ensures Assembled(items, Some(CodeSize([]))) == Assembled(items, None)
  {
    hide Encode, CodeSize, Offset, MarkIndex;
    NoSize();
    EncodeAgrees(items, OperandsOf(items, Some(0)), OperandsOf(items, None));
  }

  lemma NoSize()
    ensures CodeSize([]) == 0
  {
  }

  /** What the byte machine has done when the source program is in configuration `c`. */
  ghost predicate ByteMatches(bytes: seq<Byte>, c: Config, cont: Word, base: seq<Word>, m: Machine) {
    match c
    case Running(_, storage) => m.local.storage == storage
    case Returned(v, storage) => m.pc == cont && m.local.stack == ReturnStack(v) + base && m.local.storage == storage
    case Trapped => ByteStep(bytes, m) == None
  }

  lemma LandsAt(code: seq<Asm>, d: Word, i: nat)
    requires JumpTarget(code, d) == Some(i)
    ensures i < |code| && Offset(code, i) == d
  {
  }

  /** A matching assembly state is a matching byte state. */
  lemma MatchesBytes(
      img: Image, c: Config, acts: seq<Act>, cont: Word, exit: nat, base: seq<Word>, m: Machine)
    requires JumpTarget(img.code, cont) == Some(exit) && Matches(img, c, acts, cont, exit, base, m)
        && m.pc <= |img.code|
    ensures ByteMatches(Assembled(img.code, None), c, cont, base, Lower(img.code, m))
  {
    hide Encode, ByteStep, Step, TopOk, ChainOk, FullStack, Offset;
    LandsAt(img.code, cont, exit);
    match c
    case Running(_, _) =>
    case Returned(_, _) =>
    case Trapped => BytesHalt(img.code, m);
  }

  /**
   * The compiled bytes are correct. Invoke a function with any arguments,
   * continuation, stack, memory and storage. For every number k of source steps the
   * byte machine reaches a matching state: on return it is at the continuation
   * with exactly the result on the untouched stack and the source's storage;
   * if the source trapped it halts; while the source runs, so does the machine.
   */
  lemma CompiledBytesCorrect(
      img: Image, fs: seq<LoweredFunction>, fn: FnId, args: seq<Word>, cont: Word, exit: nat, base: seq<Word>,
      m: Machine, k: nat)
    returns (m': Machine, n: nat)
    requires Linked(img, fs) && Admissible(img, fs) && fn in img.units && fn in img.calls && fn in img.reach
    requires |args| == |img.units[fn].fn.parameters| && m.pc <= |img.code|
    requires JumpTarget(img.code, cont) == Some(exit)
    requires Invoked(img, fn, args, cont, base, m)
    ensures ByteIterate(Assembled(img.code, None), Lower(img.code, m), n) == Some(m')
    ensures var c := SourceSteps(ProgramOf(img.units), Running([Start(img, fn, args)], m.local.storage), k);
            && ByteMatches(Assembled(img.code, None), c, cont, base, m')
            && (c.Running? ==> (n + 1) * (|img.code| + 1) > k)
  {
    hide Linked, Admissible, Invoked, SourceSteps, FramesOutside, ByteIterate, Iterate, Assembled, Matches, ByteMatches;
    CompiledIsGood(img, fs);
    var acts, a, steps := ProgramCorrect(img, fn, args, cont, exit, base, m, k);
    n := BytesFollow(img.code, m, steps);
    m' := Lower(img.code, a);
    MatchesBytes(img, SourceSteps(ProgramOf(img.units), Running([Start(img, fn, args)], m.local.storage), k),
                 acts, cont, exit, base, a);
    assert (n + 1) * (|img.code| + 1) == n + |img.code| * n + |img.code| + 1;
  }
}
