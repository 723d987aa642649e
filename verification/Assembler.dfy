/**
 * Bytes of assembly: the opcode encoding (codegen/src/evm/opcodes.rs), what a label
 * operand is patched to (codegen/src/evm/bytecode.rs), and a disassembler that
 * reads the emitted instructions back.
 */
module Assembler {
  import opened Wrappers
  import opened Bytes
  import opened Evm

  /** An instruction as the machine reads it from bytes. */
  datatype Instr = Simple(op: Op) | Push(width: nat, value: nat)

  function OpByte(op: Op): Byte {
    match op
    case ADD => 0x01
    case MUL => 0x02
    case SUB => 0x03
    case DIV => 0x04
    case MOD => 0x06
    case LT => 0x10
    case GT => 0x11
    case EQ => 0x14
    case ISZERO => 0x15
    case AND => 0x16
    case OR => 0x17
    case POP => 0x50
    case MLOAD => 0x51
    case MSTORE => 0x52
    case SLOAD => 0x54
    case SSTORE => 0x55
    case JUMP => 0x56
    case JUMPI => 0x57
    case JUMPDEST => 0x5b
    case DUP(n) => 0x7f + n
    case SWAP(n) => 0x8f + n
    case INVALID => 0xfe
  }

  /** The operation of a byte that is not a push. */
  function ByteOp(b: Byte): Option<Op> {
    if b == 0x01 then Some(ADD)
    else if b == 0x02 then Some(MUL)
    else if b == 0x03 then Some(SUB)
    else if b == 0x04 then Some(DIV)
    else if b == 0x06 then Some(MOD)
    else if b == 0x10 then Some(LT)
    else if b == 0x11 then Some(GT)
    else if b == 0x14 then Some(EQ)
    else if b == 0x15 then Some(ISZERO)
    else if b == 0x16 then Some(AND)
    else if b == 0x17 then Some(OR)
    else if b == 0x50 then Some(POP)
    else if b == 0x51 then Some(MLOAD)
    else if b == 0x52 then Some(MSTORE)
    else if b == 0x54 then Some(SLOAD)
    else if b == 0x55 then Some(SSTORE)
    else if b == 0x56 then Some(JUMP)
    else if b == 0x57 then Some(JUMPI)
    else if b == 0x5b then Some(JUMPDEST)
    else if 0x80 <= b <= 0x8f then Some(DUP(b - 0x7f))
    else if 0x90 <= b <= 0x9f then Some(SWAP(b - 0x8f))
    else if b == 0xfe then Some(INVALID)
    else None
  }

  lemma OpByteDecodes(op: Op)
    ensures ByteOp(OpByte(op)) == Some(op) && !(0x60 <= OpByte(op) <= 0x7f)
  {
  }

  /** The two-byte label operands of a program, item by item. */
  type Operands = nat -> nat

  function EncodeItem(item: Asm, operand: nat): (s: seq<Byte>)
    ensures |s| == Size(item)
  {
    match item
    case Do(op) => [OpByte(op)]
    case PushWord(w) => WordWidth(w); [0x5f + |MinBytes(w)|] + MinBytes(w)
    case PushLabel(_) => [0x61] + FixedBytes(operand, 2)
    case Mark(_) => []
  }

  function Encode(items: seq<Asm>, operands: Operands): (s: seq<Byte>)
    ensures |s| == CodeSize(items)
  {
    if items == [] then []
    else
      var n := |items| - 1;
      Encode(items[..n], operands) + EncodeItem(items[n], operands(n))
  }

  /** What a byte builder holds before its labels are resolved. */
  function Draft(items: seq<Asm>): seq<Byte> {
    Encode(items, _ => 0xFFFF)
  }

  /** Only the operands of label pushes matter. */
  lemma {:induction false} EncodeAgrees(items: seq<Asm>, v: Operands, w: Operands)
    requires forall i :: 0 <= i < |items| && items[i].PushLabel? ==> v(i) == w(i)
    ensures Encode(items, v) == Encode(items, w)
  {
    if items != [] {
      EncodeAgrees(items[..|items| - 1], v, w);
    }
  }

  lemma {:induction false} EncodedItem(items: seq<Asm>, v: Operands, i: nat)
    requires i < |items|
    ensures Offset(items, i) + Size(items[i]) == Offset(items, i + 1) <= CodeSize(items)
    ensures Encode(items, v)[Offset(items, i)..Offset(items, i + 1)] == EncodeItem(items[i], v(i))
  {
    hide EncodeItem, Size;
    var n := |items| - 1;
    assert items[..i + 1][..i] == items[..i];
    if i == n {
      assert items[..n + 1] == items;
      var head := Encode(items[..n], v);
      assert (head + EncodeItem(items[n], v(n)))[|head|..] == EncodeItem(items[n], v(n));
    } else {
      EncodedItem(items[..n], v, i);
      assert items[..n][..i] == items[..i] && items[..n][..i + 1] == items[..i + 1];
      var head := Encode(items[..n], v);
      assert Encode(items, v)[Offset(items, i)..Offset(items, i + 1)] == head[Offset(items, i)..Offset(items, i + 1)];
    }
  }

  // ---------------------------------------------------------------------------
  // Labels
  // ---------------------------------------------------------------------------

  /**
   * What `finalize` writes for item i: the target's offset, counted from the start
   * of the runtime section if both ends lie in it, in 16 bits.
   */
  function OperandOf(items: seq<Asm>, runtime: Option<nat>, i: nat): nat {
    if i < |items| && items[i].PushLabel? && MarkIndex(items, items[i].target).Some? then
      var target := Offset(items, MarkIndex(items, items[i].target).value);
      Effective(target, Offset(items, i) + 1, runtime) % ADDRESS_LIMIT
    else 0
  }

  function Effective(target: nat, position: nat, runtime: Option<nat>): nat {
    match runtime
    case Some(rs) => if position >= rs && target >= rs then target - rs else target
    case None => target
  }

  function OperandsOf(items: seq<Asm>, runtime: Option<nat>): Operands {
    i => OperandOf(items, runtime, i)
  }

  function Assembled(items: seq<Asm>, runtime: Option<nat>): seq<Byte> {
    Encode(items, OperandsOf(items, runtime))
  }

  predicate Resolved(items: seq<Asm>) {
    forall i :: 0 <= i < |items| && items[i].PushLabel? ==> MarkIndex(items, items[i].target).Some?
  }

  // ---------------------------------------------------------------------------
  // Reading back
  // ---------------------------------------------------------------------------

  /** The instruction that starts at `pc`; a push that runs off the end is no instruction. */
  function Fetch(bytes: seq<Byte>, pc: nat): Option<Instr> {
    if pc >= |bytes| then None
    else if 0x60 <= bytes[pc] <= 0x7f then
      var width := bytes[pc] - 0x5f;
      if pc + 1 + width > |bytes| then None else Some(Push(width, FromBytes(bytes[pc + 1..pc + 1 + width])))
    else
      match ByteOp(bytes[pc])
      case Some(op) => Some(Simple(op))
      case None => None
  }

  function Length(instr: Instr): nat {
    match instr
    case Simple(_) => 1
    case Push(width, _) => 1 + width
  }

  function Disassemble(bytes: seq<Byte>, pc: nat): Option<seq<Instr>>
    requires pc <= |bytes|
    decreases |bytes| - pc
  {
    if pc == |bytes| then Some([])
    else
      match Fetch(bytes, pc)
      case None => None
      case Some(instr) =>
        match Disassemble(bytes, pc + Length(instr))
        case None => None
        case Some(rest) => Some([instr] + rest)
  }

  function InstrOf(item: Asm, operand: nat): Instr
    requires !item.Mark?
  {
    match item
    case Do(op) => Simple(op)
    case PushWord(w) => Push(|MinBytes(w)|, w)
    case PushLabel(_) => Push(2, operand)
  }

  /** The instructions of the items from i on; marks are not instructions. */
  function Instructions(items: seq<Asm>, operands: Operands, i: nat): seq<Instr>
    requires i <= |items|
    decreases |items| - i
  {
    if i == |items| then []
    else if items[i].Mark? then Instructions(items, operands, i + 1)
    else [InstrOf(items[i], operands(i))] + Instructions(items, operands, i + 1)
  }

  lemma FetchEncoded(bytes: seq<Byte>, pc: nat, item: Asm, operand: nat)
    requires !item.Mark? && operand < ADDRESS_LIMIT
    requires pc + Size(item) <= |bytes| && bytes[pc..pc + Size(item)] == EncodeItem(item, operand)
    ensures Fetch(bytes, pc) == Some(InstrOf(item, operand)) && Length(InstrOf(item, operand)) == Size(item)
  {
    hide FromBytes, MinBytes, FixedBytes;
    var e := EncodeItem(item, operand);
    assert bytes[pc] == bytes[pc..pc + Size(item)][0] == e[0];
    assert bytes[pc + 1..pc + Size(item)] == e[1..];
    match item
    case Do(op) => OpByteDecodes(op);
    case PushWord(w) =>
      WordWidth(w);
      FromMinBytes(w);
      assert e[1..] == MinBytes(w);
    case PushLabel(_) =>
      WordPowers();
      FromFixedBytes(operand, 2);
      assert e[1..] == FixedBytes(operand, 2);
  }

  lemma FetchItem(items: seq<Asm>, v: Operands, i: nat)
    requires i < |items| && !items[i].Mark? && v(i) < ADDRESS_LIMIT
    ensures Fetch(Encode(items, v), Offset(items, i)) == Some(InstrOf(items[i], v(i)))
    ensures Offset(items, i) + Length(InstrOf(items[i], v(i))) == Offset(items, i + 1) <= |Encode(items, v)|
  {
    hide Fetch, InstrOf, EncodeItem, Encode, Length;
    EncodedItem(items, v, i);
    FetchEncoded(Encode(items, v), Offset(items, i), items[i], v(i));
  }

  lemma OffsetEnd(items: seq<Asm>)
    ensures Offset(items, |items|) == CodeSize(items)
  {
    assert items[..|items|] == items;
  }

  lemma OffsetInside(items: seq<Asm>, i: nat)
    requires i <= |items|
    ensures Offset(items, i) <= CodeSize(items)
  {
    OffsetEnd(items);
    if i < |items| {
      OffsetMonotone(items, i, |items|);
    }
  }

  /** Disassembling from any item's offset gives back that item and the ones after it. */
  lemma {:induction false} DisassembleFrom(items: seq<Asm>, v: Operands, i: nat)
    requires i <= |items| && forall j :: i <= j < |items| ==> v(j) < ADDRESS_LIMIT
    ensures Offset(items, i) <= |Encode(items, v)|
    ensures Disassemble(Encode(items, v), Offset(items, i)) == Some(Instructions(items, v, i))
    decreases |items| - i
  {
    hide Encode, Fetch, InstrOf, Length;
    OffsetInside(items, i);
    OffsetEnd(items);
    if i < |items| {
      DisassembleFrom(items, v, i + 1);
      EncodedItem(items, v, i);
      if !items[i].Mark? {
        FetchItem(items, v, i);
      }
    }
  }

  /** The round trip: disassembling the finished bytes gives back the emitted instructions. */
  lemma RoundTrip(items: seq<Asm>, runtime: Option<nat>)
    ensures Disassemble(Assembled(items, runtime), 0) == Some(Instructions(items, OperandsOf(items, runtime), 0))
  {
    hide Encode, Disassemble, Instructions;
    DisassembleFrom(items, OperandsOf(items, runtime), 0);
  }

  // ---------------------------------------------------------------------------
  // Patching
  // ---------------------------------------------------------------------------

  /** Writing two bytes behind the opcode of a label push changes that operand and nothing else. */
  lemma {:induction false} PatchOne(items: seq<Asm>, v: Operands, w: Operands, i: nat)
    requires i < |items| && items[i].PushLabel? && w(i) < ADDRESS_LIMIT
    requires forall j :: 0 <= j < |items| && j != i ==> v(j) == w(j)
    ensures Offset(items, i) + 3 <= CodeSize(items)
    ensures Encode(items, v)[Offset(items, i) + 1 := w(i) / 256][Offset(items, i) + 2 := w(i) % 256] == Encode(items, w)
  {
    hide EncodeItem, Encode, CodeSize, Offset, MinBytes;
    var n := |items| - 1;
    var at, hi: Byte, lo: Byte := Offset(items, i), w(i) / 256, w(i) % 256;
    var head, tail := Encode(items[..n], v), EncodeItem(items[n], v(n));
    EncodedItem(items, v, i);
    EncodeLast(items, v);
    EncodeLast(items, w);
    if i == n {
      EncodeAgrees(items[..n], v, w);
      PatchLabel(head, items[n], v(n), w(n));
    } else {
      OffsetOfPrefix(items, n, i);
      PatchOne(items[..n], v, w, i);
      UpdateLeft(head, tail, at + 1, hi);
      UpdateLeft(head[at + 1 := hi], tail, at + 2, lo);
    }
  }

  lemma EncodeLast(items: seq<Asm>, v: Operands)
    requires items != []
    ensures var n := |items| - 1;
            Encode(items, v) == Encode(items[..n], v) + EncodeItem(items[n], v(n))
                && |Encode(items[..n], v)| == Offset(items, n)
  {
  }

  lemma OffsetOfPrefix(items: seq<Asm>, n: nat, i: nat)
    requires i <= n <= |items|
    ensures Offset(items[..n], i) == Offset(items, i)
  {
    assert items[..n][..i] == items[..i];
  }

  lemma UpdateLeft<T>(a: seq<T>, b: seq<T>, i: nat, x: T)
    requires i < |a|
    ensures (a + b)[i := x] == a[i := x] + b
  {
  }

  lemma PatchLabel(head: seq<Byte>, item: Asm, old_: nat, new_: nat)
    requires item.PushLabel? && new_ < ADDRESS_LIMIT
    ensures |EncodeItem(item, old_)| == 3
    ensures (head + EncodeItem(item, old_))[|head| + 1 := new_ / 256][|head| + 2 := new_ % 256]
         == head + EncodeItem(item, new_)
  {
    hide FixedBytes;
    LabelBytes(old_);
    LabelBytes(new_);
    var e: seq<Byte>, hi: Byte, lo: Byte := EncodeItem(item, old_), new_ / 256, new_ % 256;
    assert (head + e)[|head| + 1 := hi] == head + e[1 := hi];
    assert [0x61, hi, lo] == EncodeItem(item, new_);
  }

  lemma LabelBytes(operand: nat)
    ensures FixedBytes(operand, 2) == [operand / 256 % 256, operand % 256]
    ensures operand < ADDRESS_LIMIT ==> operand / 256 % 256 == operand / 256
  {
    assert FixedBytes(operand / 256 / 256, 0) == [];
    assert FixedBytes(operand / 256, 1) == [operand / 256 % 256];
  }

  // ---------------------------------------------------------------------------
  // The runtime section
  // ---------------------------------------------------------------------------

  function Shifted(v: Operands, k: nat): Operands {
    j => v(k + j)
  }

  lemma {:induction false} EncodeSplit(a: seq<Asm>, b: seq<Asm>, v: Operands)
    ensures Encode(a + b, v) == Encode(a, v) + Encode(b, Shifted(v, |a|))
    decreases |b|
  {
    hide EncodeItem, Encode, CodeSize;
    if b == [] {
      assert a + b == a;
      EncodeNone(Shifted(v, |a|));
    } else {
      var n := |b| - 1;
      assert (a + b)[..|a + b| - 1] == a + b[..n];
      EncodeSplit(a, b[..n], v);
      EncodeLast(a + b, v);
      EncodeLast(b, Shifted(v, |a|));
    }
  }

  lemma EncodeNone(v: Operands)
    ensures Encode([], v) == []
  {
  }

  lemma {:induction false} MarkIndexOfAppend(a: seq<Asm>, b: seq<Asm>, l: Label)
    ensures MarkIndex(a + b, l) ==
            match MarkIndex(b, l)
            case Some(j) => Some(|a| + j)
            case None => MarkIndex(a, l)
    decreases |b|
  {
    if b == [] {
      assert a + b == a;
    } else {
      var n := |b| - 1;
      assert (a + b)[..|a + b| - 1] == a + b[..n];
      MarkIndexOfAppend(a, b[..n], l);
    }
  }

  lemma OffsetOfAppend(a: seq<Asm>, b: seq<Asm>, j: nat)
    requires j <= |b|
    ensures Offset(a + b, |a| + j) == CodeSize(a) + Offset(b, j)
  {
    assert (a + b)[..|a| + j] == a + b[..j];
    SizeOfAppend(a, b[..j]);
  }

  /** Label operands inside the runtime section count from its start. */
  lemma RuntimeOperand(deploy: seq<Asm>, runtime: seq<Asm>, j: nat)
    requires j < |runtime| && runtime[j].PushLabel? && MarkIndex(runtime, runtime[j].target).Some?
    ensures OperandOf(deploy + runtime, Some(CodeSize(deploy)), |deploy| + j) == OperandOf(runtime, None, j)
  {
    hide CodeSize, Offset, MarkIndex;
    var items := deploy + runtime;
    assert items[|deploy| + j] == runtime[j];
    var l := runtime[j].target;
    var target := MarkIndex(runtime, l).value;
    MarkIndexOfAppend(deploy, runtime, l);
    OffsetOfAppend(deploy, runtime, target);
    OffsetOfAppend(deploy, runtime, j);
    assert Effective(Offset(items, |deploy| + target), Offset(items, |deploy| + j) + 1, Some(CodeSize(deploy)))
        == Offset(runtime, target);
  }

  /**
   * The runtime section is a program of its own: cut out of the finished bytes, it
   * is what assembling its items alone gives, if it marks every label it uses.
   */
  lemma RuntimeStandsAlone(deploy: seq<Asm>, runtime: seq<Asm>)
    requires Resolved(runtime)
    ensures var bytes := Assembled(deploy + runtime, Some(CodeSize(deploy)));
            |bytes| >= CodeSize(deploy) && bytes[CodeSize(deploy)..] == Assembled(runtime, None)
  {
    hide OperandOf, Encode, MarkIndex, CodeSize;
    var items := deploy + runtime;
    var v := OperandsOf(items, Some(CodeSize(deploy)));
    EncodeSplit(deploy, runtime, v);
    forall j | 0 <= j < |runtime| && runtime[j].PushLabel?
      ensures Shifted(v, |deploy|)(j) == OperandsOf(runtime, None)(j)
    {
      RuntimeOperand(deploy, runtime, j);
    }
    EncodeAgrees(runtime, Shifted(v, |deploy|), OperandsOf(runtime, None));
  }
}
