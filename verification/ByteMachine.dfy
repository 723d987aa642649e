/**
 * The machine that runs bytes, as the Ethereum Yellow Paper defines it: fetch at a
 * byte offset, and jumps only to the JUMPDESTs that a walk from the start meets
 * (section 9.4.3). It follows the assembly machine step by step, so what is
 * proved of assembly holds of the bytes.
 */
module ByteMachine {
  import opened Wrappers
  import opened Words
  import opened Bytes
  import opened Evm
  import opened Assembler

  /** D_J(c, pc): the valid jump destinations from `pc` on. */
  function JumpDests(bytes: seq<Byte>, pc: nat): set<nat>
    decreases |bytes| - pc
  {
    if pc >= |bytes| then {}
    else
      (if bytes[pc] == 0x5b then {pc} else {}) +
      JumpDests(bytes, pc + if 0x60 <= bytes[pc] <= 0x7f then bytes[pc] - 0x5e else 1)
  }

  function ByteJump(bytes: seq<Byte>, d: Word, s: Local): Option<Machine> {
    if d in JumpDests(bytes, 0) then Some(Machine(d, s)) else None
  }

  /** One step; `pc` is a byte offset. A push of at most 32 bytes always fits in a word. */
  function ByteStep(bytes: seq<Byte>, m: Machine): Option<Machine> {
    match Fetch(bytes, m.pc)
    case None => None
    case Some(Push(width, value)) =>
      if value >= WORD_MODULUS then None
      else Some(Machine(m.pc + 1 + width, m.local.(stack := [value] + m.local.stack)))
    case Some(Simple(JUMP)) =>
      if |m.local.stack| < 1 then None
      else ByteJump(bytes, m.local.stack[0], m.local.(stack := m.local.stack[1..]))
    case Some(Simple(JUMPI)) =>
      if |m.local.stack| < 2 then None
      else
        var next := m.local.(stack := m.local.stack[2..]);
        if m.local.stack[1] != 0 then ByteJump(bytes, m.local.stack[0], next) else Some(Machine(m.pc + 1, next))
    case Some(Simple(op)) =>
      match Effect(op, m.local)
      case Some(s) => Some(Machine(m.pc + 1, s))
      case None => None
  }

  function ByteIterate(bytes: seq<Byte>, m: Machine, n: nat): Option<Machine>
    decreases n
  {
    if n == 0 then Some(m)
    else match ByteStep(bytes, m)
      case Some(m') => ByteIterate(bytes, m', n - 1)
      case None => None
  }

  // ---------------------------------------------------------------------------
  // Jump destinations
  // ---------------------------------------------------------------------------

  function DestOffsets(items: seq<Asm>, i: nat): set<nat>
    requires i <= |items|
    decreases |items| - i
  {
    if i == |items| then {}
    else (if items[i] == Do(JUMPDEST) then {Offset(items, i)} else {}) + DestOffsets(items, i + 1)
  }

  lemma WidthOfFirstByte(bytes: seq<Byte>, pc: nat, item: Asm, operand: nat)
    requires !item.Mark?
    requires pc + Size(item) <= |bytes| && bytes[pc..pc + Size(item)] == EncodeItem(item, operand)
    ensures pc < |bytes| && (bytes[pc] == 0x5b <==> item == Do(JUMPDEST))
    ensures Size(item) == if 0x60 <= bytes[pc] <= 0x7f then bytes[pc] - 0x5e else 1
  {
    hide MinBytes, FixedBytes;
    assert bytes[pc] == bytes[pc..pc + Size(item)][0];
    if item.PushWord? {
      WordWidth(item.word);
    } else if item.Do? {
      OpByteDecodes(item.op);
      OpByteDecodes(JUMPDEST);
    }
  }

  lemma {:induction false} DestsAreItems(items: seq<Asm>, v: Operands, i: nat)
    requires i <= |items|
    ensures JumpDests(Encode(items, v), Offset(items, i)) == DestOffsets(items, i)
    decreases |items| - i
  {
    hide Encode, EncodeItem, Offset, CodeSize, Size;
    var bytes := Encode(items, v);
    OffsetEnd(items);
    if i < |items| {
      DestsAreItems(items, v, i + 1);
      EncodedItem(items, v, i);
      if items[i].Mark? {
        assert Offset(items, i + 1) == Offset(items, i) by { MarkHasNoSize(items[i]); }
      } else {
        WidthOfFirstByte(bytes, Offset(items, i), items[i], v(i));
      }
    }
  }

  lemma MarkHasNoSize(item: Asm)
    requires item.Mark?
    ensures Size(item) == 0
  {
  }

  lemma {:induction false} DestOffsetsAre(items: seq<Asm>, i: nat, d: nat)
    requires i <= |items|
    ensures d in DestOffsets(items, i) <==>
            exists j :: i <= j < |items| && items[j] == Do(JUMPDEST) && Offset(items, j) == d
    decreases |items| - i
  {
    hide Offset;
    if i < |items| {
      DestOffsetsAre(items, i + 1, d);
      if j :| i <= j < |items| && items[j] == Do(JUMPDEST) && Offset(items, j) == d {
        if j > i {
          assert i + 1 <= j < |items| && items[j] == Do(JUMPDEST) && Offset(items, j) == d;
        }
      }
    }
  }

  /** A byte jump is allowed exactly where an assembly jump lands, and lands at the same place. */
  lemma JumpsAgree(items: seq<Asm>, d: Word, s: Local)
    ensures ByteJump(Assembled(items, None), d, s) ==
            match JumpTo(items, d, s)
            case Some(m) => (if m.pc <= |items| then Some(Machine(Offset(items, m.pc), s)) else None)
            case None => None
  {
    hide Encode, DestOffsets, JumpDests, CodeSize;
    OffsetStart(items);
    DestsAreItems(items, OperandsOf(items, None), 0);
    DestOffsetsAre(items, 0, d);
    if i :| 0 <= i < |items| && items[i] == Do(JUMPDEST) && Offset(items, i) == d {
      JumpLands(items, d, i);
    }
  }

  lemma OffsetStart(items: seq<Asm>)
    ensures Offset(items, 0) == 0
  {
    assert items[..0] == [];
  }

  // ---------------------------------------------------------------------------
  // Simulation
  // ---------------------------------------------------------------------------

  /** The byte state of an assembly state. */
  function Lower(items: seq<Asm>, m: Machine): Machine
    requires m.pc <= |items|
  {
    Machine(Offset(items, m.pc), m.local)
  }

  lemma OperandIsLabelWord(items: seq<Asm>, i: nat)
    requires i < |items| && items[i].PushLabel?
    ensures OperandOf(items, None, i) == LabelWord(items, items[i].target) < ADDRESS_LIMIT
  {
    hide CodeSize, Offset, MarkIndex;
  }

  lemma StaysInside(items: seq<Asm>, m: Machine)
    requires Step(items, m).Some?
    ensures m.pc < |items| && Step(items, m).value.pc <= |items|
  {
    hide Effect, Offset;
  }

  /** Every item with bytes is one byte step. */
  lemma StepAgrees(items: seq<Asm>, m: Machine)
    requires m.pc < |items| && !items[m.pc].Mark?
    ensures match Step(items, m)
            case Some(m') => m'.pc <= |items| && ByteStep(Assembled(items, None), Lower(items, m))
                == Some(Lower(items, m'))
            case None => ByteStep(Assembled(items, None), Lower(items, m)) == None
  {
    hide Encode, Offset, Effect, JumpTo, ByteJump, OperandOf, Fetch, LabelWord, MinBytes;
    var v := OperandsOf(items, None);
    var item := items[m.pc];
    OperandBound(items, m.pc);
    FetchItem(items, v, m.pc);
    if item.PushLabel? {
      OperandIsLabelWord(items, m.pc);
    }
    if item == Do(JUMP) && |m.local.stack| >= 1 {
      JumpsAgree(items, m.local.stack[0], m.local.(stack := m.local.stack[1..]));
      JumpInside(items, m.local.stack[0], m.local.(stack := m.local.stack[1..]));
    } else if item == Do(JUMPI) && |m.local.stack| >= 2 {
      JumpsAgree(items, m.local.stack[0], m.local.(stack := m.local.stack[2..]));
      JumpInside(items, m.local.stack[0], m.local.(stack := m.local.stack[2..]));
    }
  }

  lemma JumpInside(items: seq<Asm>, d: Word, s: Local)
    ensures JumpTo(items, d, s).Some? ==> JumpTo(items, d, s).value.pc < |items| && JumpTo(items, d, s).value.local == s
  {
  }

  lemma OperandBound(items: seq<Asm>, i: nat)
    ensures OperandOf(items, None, i) < ADDRESS_LIMIT
  {
  }

  lemma MarkStep(items: seq<Asm>, m: Machine)
    requires m.pc < |items| && items[m.pc].Mark?
    ensures Step(items, m) == Some(Machine(m.pc + 1, m.local))
    ensures Lower(items, Machine(m.pc + 1, m.local)) == Lower(items, m)
  {
    hide CodeSize, Encode, EncodeItem;
    EncodedItem(items, OperandsOf(items, None), m.pc);
  }

  /**
   * Any assembly run is a byte run to the same state. Marks take no byte step;
   * there are at most |items| of them between two that do.
   */
  lemma {:induction false} BytesFollow(items: seq<Asm>, m: Machine, n: nat) returns (k: nat)
    requires m.pc <= |items| && Iterate(items, m, n).Some?
    ensures Iterate(items, m, n).value.pc <= |items|
    ensures ByteIterate(Assembled(items, None), Lower(items, m), k) == Some(Lower(items, Iterate(items, m, n).value))
    ensures k <= n && n + m.pc <= k + |items| * k + Iterate(items, m, n).value.pc
    decreases n
  {
    hide Lower, Assembled, ByteStep, Step;
    if n == 0 {
      k := 0;
    } else {
      var m' := Step(items, m).value;
      StaysInside(items, m);
      k := BytesFollow(items, m', n - 1);
      if items[m.pc].Mark? {
        MarkStep(items, m);
      } else {
        StepAgrees(items, m);
        assert |items| * (k + 1) == |items| * k + |items|;
        k := k + 1;
      }
    }
  }

  /** An exceptional halt of the assembly machine is one of the byte machine. */
  lemma BytesHalt(items: seq<Asm>, m: Machine)
    requires m.pc <= |items| && Step(items, m) == None
    ensures ByteStep(Assembled(items, None), Lower(items, m)) == None
  {
    hide Encode, ByteStep;
    if m.pc < |items| {
      if items[m.pc].Mark? {
        MarkStep(items, m);
      } else {
        StepAgrees(items, m);
      }
    } else {
      EndHalts(items, m);
    }
  }

  lemma EndHalts(items: seq<Asm>, m: Machine)
    requires m.pc == |items|
    ensures ByteStep(Assembled(items, None), Lower(items, m)) == None
  {
    hide Encode;
    OffsetEnd(items);
  }
}
