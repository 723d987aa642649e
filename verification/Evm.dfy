/**
 * The target machine: EVM assembly with symbolic labels, its layout in bytes,
 * and the stack machine of the Ethereum Yellow Paper (Appendix H.2) over it.
 */
module Evm {
  import opened Wrappers
  import opened Words
  import opened Bytes

  type Label = nat
  type Depth = n: nat | 1 <= n <= 16 witness 1

  datatype Op =
    | ADD | MUL | SUB | DIV | MOD
    | LT | GT | EQ | ISZERO | AND | OR
    | POP | MLOAD | MSTORE | SLOAD | SSTORE
    | JUMP | JUMPI | JUMPDEST | INVALID
    | DUP(n: Depth) | SWAP(n: Depth)

  function DupForPosition(pos: nat): Option<Op> {
    if 1 <= pos <= 16 then Some(DUP(pos)) else None
  }

  function SwapForPosition(pos: nat): Option<Op> {
    if 1 <= pos <= 16 then Some(SWAP(pos)) else None
  }

  /** One assembly item. `Mark` has no bytes: it only binds a label to a place. */
  datatype Asm =
    | Do(op: Op)
    | PushWord(word: Word)
    | PushLabel(target: Label)
    | Mark(mark: Label)

  // ---------------------------------------------------------------------------
  // Layout
  // ---------------------------------------------------------------------------

  const ADDRESS_LIMIT: nat := 0x1_0000

  function Size(item: Asm): nat {
    match item
    case Do(_) => 1
    case PushWord(w) => 1 + |MinBytes(w)|
    case PushLabel(_) => 3
    case Mark(_) => 0
  }

  function CodeSize(code: seq<Asm>): nat {
    if code == [] then 0 else CodeSize(code[..|code| - 1]) + Size(code[|code| - 1])
  }

  /** Byte offset of item `i`. */
  function Offset(code: seq<Asm>, i: nat): nat
    requires i <= |code|
  {
    CodeSize(code[..i])
  }

  /** The place a label is bound to: its last mark, as a later binding replaces an earlier one. */
  function MarkIndex(code: seq<Asm>, l: Label): (r: Option<nat>)
    ensures r.Some? ==> r.value < |code| && code[r.value] == Mark(l)
    ensures r.None? ==> Mark(l) !in code
  {
    if code == [] then None
    else if code[|code| - 1] == Mark(l) then Some(|code| - 1)
    else
      assert code == code[..|code| - 1] + [code[|code| - 1]];
      MarkIndex(code[..|code| - 1], l)
  }

  /** The word a label operand holds: two bytes, so the offset is truncated to 16 bits. */
  function LabelWord(code: seq<Asm>, l: Label): Word {
    match MarkIndex(code, l)
    case Some(i) => Offset(code, i) % ADDRESS_LIMIT
    case None => 0
  }

  function Labels(code: seq<Asm>): Label -> Word {
    l => LabelWord(code, l)
  }

  ghost predicate MarkAt(code: seq<Asm>, i: nat, l: Label) {
    i < |code| && code[i] == Mark(l)
  }

  /** A label is marked at most once. */
  ghost predicate UniqueMarks(code: seq<Asm>) {
    forall l, i, j {:trigger MarkAt(code, i, l), MarkAt(code, j, l)} ::
      MarkAt(code, i, l) && MarkAt(code, j, l) ==> i == j
  }

  // ---------------------------------------------------------------------------
  // The machine
  // ---------------------------------------------------------------------------

  /**
   * Stack (top first), memory and storage. Memory is a map from the byte address
   * of a 32-byte word; every address the compiler uses is a multiple of 32.
   */
  datatype Local = Local(stack: seq<Word>, memory: map<nat, Word>, storage: map<Word, Word>)

  function Load<K(==)>(m: map<K, Word>, k: K): Word {
    if k in m then m[k] else 0
  }

  function Binary(op: Op, top: Word, second: Word): Option<Word> {
    match op
    case ADD => Some(Add(top, second))
    case MUL => Some(Mul(top, second))
    case SUB => Some(Sub(top, second))
    case DIV => Some(Div(top, second))
    case MOD => Some(Mod(top, second))
    case LT => Some(FromBool(top < second))
    case GT => Some(FromBool(top > second))
    case EQ => Some(FromBool(top == second))
    case AND => Some(And(top, second))
    case OR => Some(Or(top, second))
    case _ => None
  }

  /** The effect of an instruction that does not transfer control; None is an exceptional halt. */
  function Effect(op: Op, s: Local): Option<Local> {
    match op
    case DUP(n) =>
      if |s.stack| < n then None else Some(s.(stack := [s.stack[n - 1]] + s.stack))
    case SWAP(n) =>
      if |s.stack| < n + 1 then None
      else Some(s.(stack := s.stack[0 := s.stack[n]][n := s.stack[0]]))
    case POP =>
      if |s.stack| < 1 then None else Some(s.(stack := s.stack[1..]))
    case ISZERO =>
      if |s.stack| < 1 then None else Some(s.(stack := [FromBool(s.stack[0] == 0)] + s.stack[1..]))
    case MLOAD =>
      if |s.stack| < 1 then None else Some(s.(stack := [Load(s.memory, s.stack[0])] + s.stack[1..]))
    case MSTORE =>
      if |s.stack| < 2 then None
      else Some(s.(stack := s.stack[2..], memory := s.memory[s.stack[0] := s.stack[1]]))
    case SLOAD =>
      if |s.stack| < 1 then None else Some(s.(stack := [Load(s.storage, s.stack[0])] + s.stack[1..]))
    case SSTORE =>
      if |s.stack| < 2 then None
      else Some(s.(stack := s.stack[2..], storage := s.storage[s.stack[0] := s.stack[1]]))
    case JUMPDEST => Some(s)
    case JUMP => None
    case JUMPI => None
    case INVALID => None
    case _ =>
      if |s.stack| < 2 then None
      else match Binary(op, s.stack[0], s.stack[1])
        case Some(w) => Some(s.(stack := [w] + s.stack[2..]))
        case None => None
  }

  /** One assembly item without a transfer of control; `labels` gives label operands their words. */
  function AsmEffect(item: Asm, labels: Label -> Word, s: Local): Option<Local> {
    match item
    case Do(op) => Effect(op, s)
    case PushWord(w) => Some(s.(stack := [w] + s.stack))
    case PushLabel(l) => Some(s.(stack := [labels(l)] + s.stack))
    case Mark(_) => Some(s)
  }

  /** A straight-line run. */
  function Run(code: seq<Asm>, labels: Label -> Word, s: Local): Option<Local> {
    if code == [] then Some(s)
    else match AsmEffect(code[0], labels, s)
      case Some(s') => Run(code[1..], labels, s')
      case None => None
  }

  datatype Machine = Machine(pc: nat, local: Local)

  /**
   * Where a jump to byte offset `d` lands: the JUMPDEST instruction that starts
   * there (Yellow Paper, section 9.4.3).
   */
  ghost function JumpTarget(code: seq<Asm>, d: Word): Option<nat> {
    if exists i :: 0 <= i < |code| && code[i] == Do(JUMPDEST) && Offset(code, i) == d then
      var i :| 0 <= i < |code| && code[i] == Do(JUMPDEST) && Offset(code, i) == d;
      Some(i)
    else None
  }

  ghost function JumpTo(code: seq<Asm>, d: Word, s: Local): Option<Machine> {
    match JumpTarget(code, d)
    case Some(i) => Some(Machine(i, s))
    case None => None
  }

  ghost function Step(code: seq<Asm>, m: Machine): Option<Machine> {
    if m.pc >= |code| then None
    else match code[m.pc]
      case Do(JUMP) =>
        if |m.local.stack| < 1 then None
        else JumpTo(code, m.local.stack[0], m.local.(stack := m.local.stack[1..]))
      case Do(JUMPI) =>
        if |m.local.stack| < 2 then None
        else
          var next := m.local.(stack := m.local.stack[2..]);
          if m.local.stack[1] != 0 then JumpTo(code, m.local.stack[0], next)
          else Some(Machine(m.pc + 1, next))
      case item =>
        match AsmEffect(item, Labels(code), m.local)
        case Some(s) => Some(Machine(m.pc + 1, s))
        case None => None
  }

  ghost function Iterate(code: seq<Asm>, m: Machine, n: nat): Option<Machine>
    decreases n
  {
    if n == 0 then Some(m)
    else match Step(code, m)
      case Some(m') => Iterate(code, m', n - 1)
      case None => None
  }

  // ---------------------------------------------------------------------------
  // Laws of layout and execution
  // ---------------------------------------------------------------------------

  lemma {:induction false} SizeOfAppend(a: seq<Asm>, b: seq<Asm>)
    ensures CodeSize(a + b) == CodeSize(a) + CodeSize(b)
    decreases |b|
  {
    if b == [] {
      assert a + b == a;
    } else {
      var init := b[..|b| - 1];
      SizeOfAppend(a, init);
      assert (a + b)[..|a + b| - 1] == a + init;
    }
  }

  lemma {:induction false} OffsetMonotone(code: seq<Asm>, i: nat, j: nat)
    requires i < j <= |code|
    ensures Offset(code, i) + Size(code[i]) <= Offset(code, j)
    decreases j
  {
    assert code[..j][..j - 1] == code[..j - 1];
    if i < j - 1 {
      OffsetMonotone(code, i, j - 1);
    }
  }

  /** Jump targets are unambiguous: two items at one offset cannot both be JUMPDESTs. */
  lemma JumpLands(code: seq<Asm>, d: Word, i: nat)
    requires i < |code| && code[i] == Do(JUMPDEST) && Offset(code, i) == d
    ensures JumpTarget(code, d) == Some(i)
  {
    var r := JumpTarget(code, d).value;
    if r < i {
      OffsetMonotone(code, r, i);
    } else if i < r {
      OffsetMonotone(code, i, r);
    }
  }

  lemma MarkIsFound(code: seq<Asm>, l: Label, i: nat)
    requires UniqueMarks(code)
    requires i < |code| && code[i] == Mark(l)
    ensures MarkIndex(code, l) == Some(i)
  {
    var r := MarkIndex(code, l);
    assert r.Some?;
    assert MarkAt(code, i, l) && MarkAt(code, r.value, l);
  }

  lemma {:induction false} RunAppend(a: seq<Asm>, b: seq<Asm>, labels: Label -> Word, s: Local)
    ensures Run(a + b, labels, s) ==
            match Run(a, labels, s) { case Some(s') => Run(b, labels, s') case None => None }
    decreases |a|
  {
    if a == [] {
      assert a + b == b;
    } else {
      assert (a + b)[1..] == a[1..] + b;
      match AsmEffect(a[0], labels, s)
      case Some(s') => RunAppend(a[1..], b, labels, s');
      case None =>
    }
  }

  lemma RunOne(item: Asm, labels: Label -> Word, s: Local)
    ensures Run([item], labels, s) == AsmEffect(item, labels, s)
  {
    assert [item][1..] == [];
  }

  // Short runs the code generator is built from.

  lemma RunTwo(a: Asm, b: Asm, labels: Label -> Word, s: Local)
    requires AsmEffect(a, labels, s).Some?
    ensures Run([a, b], labels, s) == AsmEffect(b, labels, AsmEffect(a, labels, s).value)
  {
    assert [a, b][1..] == [b];
    RunOne(b, labels, AsmEffect(a, labels, s).value);
  }

  lemma RunDup(n: Depth, labels: Label -> Word, s: Local)
    requires n <= |s.stack|
    ensures Run([Do(DUP(n))], labels, s) == Some(s.(stack := [s.stack[n - 1]] + s.stack))
  {
    hide Run;
    RunOne(Do(DUP(n)), labels, s);
  }

  lemma RunSwap(n: Depth, labels: Label -> Word, s: Local)
    requires n < |s.stack|
    ensures Run([Do(SWAP(n))], labels, s) == Some(s.(stack := s.stack[0 := s.stack[n]][n := s.stack[0]]))
  {
    hide Run;
    RunOne(Do(SWAP(n)), labels, s);
  }

  lemma RunPop(labels: Label -> Word, s: Local)
    requires |s.stack| > 0
    ensures Run([Do(POP)], labels, s) == Some(s.(stack := s.stack[1..]))
  {
    hide Run;
    RunOne(Do(POP), labels, s);
  }

  lemma RunPushLoad(a: Word, labels: Label -> Word, s: Local)
    ensures Run([PushWord(a), Do(MLOAD)], labels, s) == Some(s.(stack := [Load(s.memory, a)] + s.stack))
  {
    hide Run;
    RunTwo(PushWord(a), Do(MLOAD), labels, s);
    assert ([a] + s.stack)[1..] == s.stack;
  }

  lemma RunPushStore(a: Word, labels: Label -> Word, s: Local)
    requires |s.stack| > 0
    ensures Run([PushWord(a), Do(MSTORE)], labels, s)
         == Some(s.(stack := s.stack[1..], memory := s.memory[a := s.stack[0]]))
  {
    hide Run, Binary;
    var pushed := s.(stack := [a] + s.stack);
    RunTwo(PushWord(a), Do(MSTORE), labels, s);
    StoreEffect(pushed, s.stack[1..], a, s.stack[0]);
  }

  lemma StoreEffect(s: Local, rest: seq<Word>, a: Word, w: Word)
    requires |s.stack| >= 2 && s.stack[0] == a && s.stack[1] == w && s.stack[2..] == rest
    ensures Effect(MSTORE, s) == Some(s.(stack := rest, memory := s.memory[a := w]))
  {
  }

  /** `SWAP n; POP` moves the top over the item `n` places below it. */
  lemma RunSwapPop(n: Depth, labels: Label -> Word, s: Local)
    requires n < |s.stack|
    ensures Run([Do(SWAP(n)), Do(POP)], labels, s) == Some(s.(stack := s.stack[1..][n - 1 := s.stack[0]]))
  {
    hide Run, Effect;
    assert [Do(SWAP(n)), Do(POP)] == [Do(SWAP(n))] + [Do(POP)];
    var swapped := s.(stack := s.stack[0 := s.stack[n]][n := s.stack[0]]);
    RunSwap(n, labels, s);
    RunPop(labels, swapped);
    RunAppend([Do(SWAP(n))], [Do(POP)], labels, s);
    assert swapped.stack[1..] == s.stack[1..][n - 1 := s.stack[0]];
  }

  lemma {:induction false} IterateAdd(code: seq<Asm>, m: Machine, a: nat, b: nat)
    requires Iterate(code, m, a).Some?
    ensures Iterate(code, m, a + b) == Iterate(code, Iterate(code, m, a).value, b)
    decreases a
  {
    if a > 0 {
      IterateAdd(code, Step(code, m).value, a - 1, b);
    }
  }

  /** `part` sits in `code` at item `pc`. */
  ghost predicate CodeAt(code: seq<Asm>, pc: nat, part: seq<Asm>) {
    pc + |part| <= |code| && code[pc..pc + |part|] == part
  }

  lemma CodeAtSplit(code: seq<Asm>, pc: nat, a: seq<Asm>, b: seq<Asm>)
    requires CodeAt(code, pc, a + b)
    ensures CodeAt(code, pc, a) && CodeAt(code, pc + |a|, b)
  {
    var whole := code[pc..pc + |a + b|];
    assert whole[..|a|] == a && whole[|a|..] == b;
    assert code[pc..pc + |a|] == whole[..|a|];
    assert code[pc + |a|..pc + |a| + |b|] == whole[|a|..];
  }

  lemma CodeAtHead(code: seq<Asm>, pc: nat, part: seq<Asm>)
    requires part != [] && CodeAt(code, pc, part)
    ensures pc < |code| && code[pc] == part[0] && CodeAt(code, pc + 1, part[1..])
  {
    assert code[pc..pc + |part|][0] == code[pc];
    assert part == [part[0]] + part[1..];
    CodeAtSplit(code, pc, [part[0]], part[1..]);
  }

  /** A straight-line run is that many machine steps, wherever the code sits. */
  lemma {:induction false} RunIsSteps(code: seq<Asm>, pc: nat, part: seq<Asm>, s: Local)
    requires CodeAt(code, pc, part)
    requires Run(part, Labels(code), s).Some?
    ensures Iterate(code, Machine(pc, s), |part|)
         == Some(Machine(pc + |part|, Run(part, Labels(code), s).value))
    decreases |part|
  {
    if part != [] {
      CodeAtHead(code, pc, part);
      var s' := AsmEffect(part[0], Labels(code), s).value;
      RunIsSteps(code, pc + 1, part[1..], s');
    }
  }
}
