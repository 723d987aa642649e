/**
 * The bytecode builder (codegen/src/evm/bytecode.rs): bytes with placeholders for
 * label operands, and `finalize`, which patches them in place. The ghost field
 * `items` is the assembly the bytes stand for.
 */
module Builder {
  import opened Wrappers
  import opened Sequences
  import opened Words
  import opened Bytes
  import opened Evm
  import opened Assembler

  datatype PendingJump = PendingJump(position: nat, target: Label, size: nat)

  /** Indices of the label pushes, in order. */
  function LabelPushes(items: seq<Asm>): seq<nat> {
    if items == [] then []
    else
      var n := |items| - 1;
      LabelPushes(items[..n]) + if items[n].PushLabel? then [n] else []
  }

  function PendingOf(items: seq<Asm>): seq<PendingJump> {
    if items == [] then []
    else
      var n := |items| - 1;
      PendingOf(items[..n]) +
      if items[n].PushLabel? then [PendingJump(Offset(items, n) + 1, items[n].target, 2)] else []
  }

  /** Each marked label is bound to the offset of its last mark. */
  ghost predicate LabelsMatch(labels: map<Label, nat>, items: seq<Asm>) {
    forall l ::
      (l in labels <==> MarkIndex(items, l).Some?)
      && (l in labels ==> labels[l] == Offset(items, MarkIndex(items, l).value))
  }

  /** The builder's fields stand for these items. */
  ghost predicate StandsFor(code: seq<Byte>, labels: map<Label, nat>, pendingJumps: seq<PendingJump>, items: seq<Asm>) {
    && code == Draft(items)
    && LabelsMatch(labels, items)
    && pendingJumps == PendingOf(items)
  }

  lemma DraftGrows(items: seq<Asm>, item: Asm)
    ensures Draft(items + [item]) == Draft(items) + EncodeItem(item, 0xFFFF)
    ensures Offset(items + [item], |items|) == |Draft(items)|
  {
    assert (items + [item])[..|items|] == items;
  }

  lemma PendingGrows(items: seq<Asm>, item: Asm)
    ensures PendingOf(items + [item]) ==
            PendingOf(items) + (if item.PushLabel? then [PendingJump(|Draft(items)| + 1, item.target, 2)] else [])
  {
    assert (items + [item])[..|items|] == items;
  }

  lemma LabelsKept(labels: map<Label, nat>, items: seq<Asm>, item: Asm)
    requires LabelsMatch(labels, items) && !item.Mark?
    ensures LabelsMatch(labels, items + [item])
  {
    hide Offset;
    forall l
      ensures MarkIndex(items + [item], l) == MarkIndex(items, l)
      ensures MarkIndex(items, l).Some? ==>
                Offset(items + [item], MarkIndex(items, l).value) == Offset(items, MarkIndex(items, l).value)
    {
      assert (items + [item])[..|items|] == items;
      if MarkIndex(items, l).Some? {
        OffsetOfPrefix(items + [item], |items|, MarkIndex(items, l).value);
      }
    }
  }

  lemma LabelsGrow(labels: map<Label, nat>, items: seq<Asm>, l: Label)
    requires LabelsMatch(labels, items)
    ensures LabelsMatch(labels[l := |Draft(items)|], items + [Mark(l)])
  {
    hide Offset, Draft;
    var items' := items + [Mark(l)];
    assert items'[..|items|] == items;
    DraftGrows(items, Mark(l));
    forall x | x != l
      ensures MarkIndex(items', x) == MarkIndex(items, x)
      ensures MarkIndex(items, x).Some? ==>
                Offset(items', MarkIndex(items, x).value) == Offset(items, MarkIndex(items, x).value)
    {
      if MarkIndex(items, x).Some? {
        OffsetOfPrefix(items', |items|, MarkIndex(items, x).value);
      }
    }
  }

  class BytecodeBuilder {
    var code: seq<Byte>
    var labels: map<Label, nat>
    var pendingJumps: seq<PendingJump>
    var nextLabelId: nat
    var runtimeStart: Option<nat>
    ghost var items: seq<Asm>

    ghost predicate Valid()
      reads this
    {
      StandsFor(code, labels, pendingJumps, items)
    }

    constructor ()
      ensures Valid() && items == [] && nextLabelId == 0 && runtimeStart == None
    {
      code, labels, pendingJumps, nextLabelId, runtimeStart := [], map[], [], 0, None;
      items := [];
    }

    method MarkRuntimeStart()
      requires Valid()
      modifies this`runtimeStart
      ensures Valid() && runtimeStart == Some(CodeSize(items))
    {
      runtimeStart := Some(|code|);
    }

    method NewLabel() returns (l: Label)
      requires Valid()
      modifies this`nextLabelId
      ensures Valid() && l == old(nextLabelId) && nextLabelId == l + 1
    {
      l := nextLabelId;
      nextLabelId := nextLabelId + 1;
    }

    method MarkLabel(l: Label)
      requires Valid()
      modifies this`labels, this`items
      ensures Valid() && items == old(items) + [Mark(l)]
    {
      hide Draft, LabelsMatch, PendingOf;
      LabelsGrow(labels, items, l);
      DraftGrows(items, Mark(l));
      PendingGrows(items, Mark(l));
      labels := labels[l := |code|];
      items := items + [Mark(l)];
    }

    method Emit(op: Op)
      requires Valid()
      modifies this`code, this`items
      ensures Valid() && items == old(items) + [Do(op)]
    {
      hide Draft, LabelsMatch, PendingOf;
      LabelsKept(labels, items, Do(op));
      DraftGrows(items, Do(op));
      PendingGrows(items, Do(op));
      code := code + [OpByte(op)];
      items := items + [Do(op)];
    }

    /**
     * Push a byte string; what is pushed is its value, in minimal width. Past 32
     * significant bytes the source panics.
     */
    method Push(value: seq<Byte>) returns (ok: bool)
      requires Valid()
      modifies this`code, this`items
      ensures Valid() && (ok <==> |Trimmed(value)| <= 32)
      ensures ok ==> FromBytes(value) < WORD_MODULUS && items == old(items) + [PushWord(FromBytes(value))]
      ensures !ok ==> items == old(items)
    {
      hide Draft, LabelsMatch, PendingOf, Trimmed, FromBytes, MinBytes;
      var trimmed := TrimLeadingZeros(value);
      ok := |trimmed| <= 32;
      if !ok {
        return;
      }
      PushIsWord(value);
      ghost var item := PushWord(FromBytes(value));
      LabelsKept(labels, items, item);
      DraftGrows(items, item);
      PendingGrows(items, item);
      if trimmed == [] {
        code := code + [0x60];
        code := code + [0];
        assert code == old(code) + ([0x60] + [0]);
      } else {
        code := code + [0x5f + |trimmed|];
        code := code + trimmed;
        assert code == old(code) + ([0x5f + |trimmed|] + trimmed);
      }
      items := items + [item];
    }

    method PushU64(value: nat)
      requires Valid() && value < 0x1_0000_0000_0000_0000
      modifies this`code, this`items
      ensures Valid() && items == old(items) + [PushWord(value)]
    {
      WordPowers();
      FromFixedBytes(value, 8);
      TrimmedLength(FixedBytes(value, 8));
      var _ := Push(FixedBytes(value, 8));
    }

    method PushU256(value: Word)
      requires Valid()
      modifies this`code, this`items
      ensures Valid() && items == old(items) + [PushWord(value)]
    {
      WordPowers();
      FromFixedBytes(value, 32);
      TrimmedLength(FixedBytes(value, 32));
      var _ := Push(FixedBytes(value, 32));
    }

    method PushLabel(l: Label)
      requires Valid()
      modifies this`code, this`pendingJumps, this`items
      ensures Valid() && items == old(items) + [Asm.PushLabel(l)]
    {
      hide Draft, LabelsMatch, PendingOf;
      ghost var item := Asm.PushLabel(l);
      LabelsKept(labels, items, item);
      DraftGrows(items, item);
      PendingGrows(items, item);
      LabelBytes(0xFFFF);
      var position := |code|;
      code := code + [0x61, 0xFF, 0xFF];
      pendingJumps := pendingJumps + [PendingJump(position + 1, l, 2)];
      items := items + [item];
      assert EncodeItem(item, 0xFFFF) == [0x61, 0xFF, 0xFF];
    }

    method JumpTo(l: Label)
      requires Valid()
      modifies this`code, this`pendingJumps, this`items
      ensures Valid() && items == old(items) + [Asm.PushLabel(l), Do(JUMP)]
    {
      hide StandsFor;
      PushLabel(l);
      Emit(JUMP);
    }

    method JumpiTo(l: Label)
      requires Valid()
      modifies this`code, this`pendingJumps, this`items
      ensures Valid() && items == old(items) + [Asm.PushLabel(l), Do(JUMPI)]
    {
      hide StandsFor;
      PushLabel(l);
      Emit(JUMPI);
    }

    /**
     * Resolve every label. It fails exactly when a pushed label was never marked;
     * otherwise the patched bytes are the assembled program.
     */
    method Finalize() returns (r: Result<seq<Byte>>)
      requires Valid()
      modifies this`code
      ensures r.Ok? <==> Resolved(items)
      ensures r.Ok? ==> r.value == code == Assembled(items, runtimeStart)
      ensures r.Err? ==> r.error.UnresolvedLabel? && exists i ::
                0 <= i < |items| && items[i] == Asm.PushLabel(r.error.target) && MarkIndex(items, r.error.target).None?
    {
      hide Encode, OperandOf, CodeSize, Offset, MarkIndex, PendingOf, LabelPushes, Mixed, Draft;
      ghost var pushes := LabelPushes(items);
      PushesArePending(items);
      DraftIsMixed(items, runtimeStart);
      var k := 0;
      while k < |pendingJumps|
        invariant k <= |pendingJumps|
        invariant code == Encode(items, Mixed(items, runtimeStart, pushes[..k]))
        invariant forall j :: 0 <= j < k ==> MarkIndex(items, items[pushes[j]].target).Some?
      {
        var jump := pendingJumps[k];
        if jump.target !in labels {
          return Err(UnresolvedLabel(jump.target));
        }
        var target := labels[jump.target];
        var effective :=
          if runtimeStart.Some? && jump.position >= runtimeStart.value && target >= runtimeStart.value
          then target - runtimeStart.value else target;
        var patch: nat := effective % 0x1_0000;
        OperandIs(items, runtimeStart, pushes[k]);
        MixedStep(items, runtimeStart, pushes, k);
        PatchOne(items, Mixed(items, runtimeStart, pushes[..k]), Mixed(items, runtimeStart, pushes[..k + 1]),
            pushes[k]);
        code := code[jump.position := patch / 256];
        code := code[jump.position + 1 := patch % 256];
        k := k + 1;
      }
      assert pushes[..k] == pushes;
      MixedEnd(items, runtimeStart);
      return Ok(code);
    }
  }

  method TrimLeadingZeros(bytes: seq<Byte>) returns (r: seq<Byte>)
    ensures r == Trimmed(bytes)
  {
    var start := 0;
    while start < |bytes| && bytes[start] == 0
      invariant start <= |bytes| && Trimmed(bytes[start..]) == Trimmed(bytes)
    {
      assert bytes[start..][1..] == bytes[start + 1..];
      start := start + 1;
    }
    r := bytes[start..];
  }

  lemma {:induction false} TrimmedLength(s: seq<Byte>)
    ensures |Trimmed(s)| <= |s|
  {
    if s != [] && s[0] == 0 {
      TrimmedLength(s[1..]);
    }
  }

  lemma {:induction false} PowerGrows(m: nat, n: nat)
    requires m <= n
    ensures Power256(m) <= Power256(n)
    decreases n
  {
    if m < n {
      PowerGrows(m, n - 1);
    }
  }

  /** What `push` emits for a byte string is the push of its value. */
  lemma PushIsWord(value: seq<Byte>)
    requires |Trimmed(value)| <= 32
    ensures FromBytes(value) < WORD_MODULUS
    ensures EncodeItem(PushWord(FromBytes(value)), 0xFFFF) ==
            if Trimmed(value) == [] then [0x60] + [0] else [0x5f + |Trimmed(value)|] + Trimmed(value)
  {
    TrimKeepsValue(value);
    FromBytesBound(Trimmed(value));
    PowerGrows(|Trimmed(value)|, 32);
    WordPowers();
    TrimIsMinimal(value);
  }

  // ---------------------------------------------------------------------------
  // Finalizing
  // ---------------------------------------------------------------------------

  /** Operands when the label pushes in `done` are patched and the others are placeholders. */
  function Mixed(items: seq<Asm>, runtime: Option<nat>, done: seq<nat>): Operands {
    i => if i in done then OperandOf(items, runtime, i) else 0xFFFF
  }

  lemma {:induction false} PushesArePending(items: seq<Asm>)
    ensures |PendingOf(items)| == |LabelPushes(items)|
    ensures forall k :: 0 <= k < |LabelPushes(items)| ==>
              LabelPushes(items)[k] < |items| && items[LabelPushes(items)[k]].PushLabel?
              && PendingOf(items)[k] == PendingJump(Offset(items, LabelPushes(items)[k]) + 1,
                  items[LabelPushes(items)[k]].target, 2)
    ensures forall i :: 0 <= i < |items| && items[i].PushLabel? ==> i in LabelPushes(items)
    ensures Distinct(LabelPushes(items))
  {
    hide CodeSize, Offset;
    if items != [] {
      var n := |items| - 1;
      PushesArePending(items[..n]);
      forall i: nat | i <= n ensures Offset(items[..n], i) == Offset(items, i) {
        OffsetOfPrefix(items, n, i);
      }
    }
  }

  lemma DraftIsMixed(items: seq<Asm>, runtime: Option<nat>)
    ensures Draft(items) == Encode(items, Mixed(items, runtime, []))
  {
    EncodeAgrees(items, _ => 0xFFFF, Mixed(items, runtime, []));
  }

  lemma OperandIs(items: seq<Asm>, runtime: Option<nat>, i: nat)
    requires i < |items| && items[i].PushLabel? && MarkIndex(items, items[i].target).Some?
    ensures var target := Offset(items, MarkIndex(items, items[i].target).value);
            OperandOf(items, runtime, i) ==
            (if runtime.Some? && Offset(items, i) + 1 >= runtime.value && target >= runtime.value
             then target - runtime.value else target) % 0x1_0000
  {
    hide CodeSize, Offset, MarkIndex;
  }

  lemma MixedStep(items: seq<Asm>, runtime: Option<nat>, pushes: seq<nat>, k: nat)
    requires k < |pushes| && Distinct(pushes)
    ensures forall j :: j != pushes[k] ==>
              Mixed(items, runtime, pushes[..k])(j) == Mixed(items, runtime, pushes[..k + 1])(j)
    ensures Mixed(items, runtime, pushes[..k + 1])(pushes[k]) == OperandOf(items, runtime, pushes[k])
    ensures OperandOf(items, runtime, pushes[k]) < ADDRESS_LIMIT
  {
    assert pushes[..k + 1] == pushes[..k] + [pushes[k]];
  }

  lemma MixedEnd(items: seq<Asm>, runtime: Option<nat>)
    ensures Encode(items, Mixed(items, runtime, LabelPushes(items))) == Assembled(items, runtime)
  {
    PushesArePending(items);
    EncodeAgrees(items, Mixed(items, runtime, LabelPushes(items)), OperandsOf(items, runtime));
  }

  /** A byte that patching may change: one of the two behind a label push. */
  ghost predicate Placeholder(items: seq<Asm>, at: nat) {
    exists i :: 0 <= i < |items| && items[i].PushLabel? && (at == Offset(items, i) + 1 || at == Offset(items, i) + 2)
  }

  /** Finalizing keeps the length and touches placeholders only. */
  lemma {:induction false} OnlyPlaceholdersChange(items: seq<Asm>, v: Operands, w: Operands, at: nat)
    requires at < CodeSize(items) && !Placeholder(items, at)
    ensures Encode(items, v)[at] == Encode(items, w)[at]
  {
    var n := |items| - 1;
    EncodeLast(items, v);
    EncodeLast(items, w);
    var start := Offset(items, n);
    if at < start {
      forall i | 0 <= i < n ensures Offset(items[..n], i) == Offset(items, i) && items[..n][i] == items[i] {
        OffsetOfPrefix(items, n, i);
      }
      assert !Placeholder(items[..n], at);
      OnlyPlaceholdersChange(items[..n], v, w, at);
    } else if items[n].PushLabel? {
      assert at == start;
    }
  }
}
