/** Planning and emitting a stack shuffle (codegen/src/codegen/stack_shuffler.rs). */
module Shuffler {
  import opened Wrappers
  import opened Sequences
  import opened Words
  import opened Evm
  import opened Lowered

  datatype ShuffleOp =
    | Dup(n: nat)
    | Swap(n: nat)
    | Pop
    | MLoad(slot: Slot)
    | MStore(slot: Slot)

  /** A slot's word in the function's memory frame; the source computes in 64 bits. */
  function MemoryOffset(base: nat, slot: Slot): Uint64 {
    (base + slot * 32) % 0x1_0000_0000_0000_0000
  }

  // ---------------------------------------------------------------------------
  // The plan, as a function
  // ---------------------------------------------------------------------------

  predicate AlreadyThere(current: seq<Option<Slot>>, target: seq<Slot>) {
    |current| == |target| && forall i :: 0 <= i < |target| ==> current[i] == Some(target[i])
  }

  function Fetch(sim: seq<Option<Slot>>, t: Slot): ShuffleOp {
    match FirstIndex(sim, Some(t))
    case Some(pos) => Dup(pos + 1)
    case None => MLoad(t)
  }

  /** Put a copy of every item of `pre` on top of `sim`, last item first. */
  function Loads(sim: seq<Option<Slot>>, pre: seq<Slot>): seq<ShuffleOp>
    decreases |pre|
  {
    if pre == [] then []
    else
      var t := pre[|pre| - 1];
      [Fetch(sim, t)] + Loads([Some(t)] + sim, pre[..|pre| - 1])
  }

  function Drains(m: nat, n: nat): seq<ShuffleOp> {
    if m == 0 then [] else [Swap(n), Pop] + Drains(m - 1, n)
  }

  function Pops(m: nat): seq<ShuffleOp> {
    if m == 0 then [] else [Pop] + Pops(m - 1)
  }

  /** The target rotated right by `m`: draining `m` items will rotate it back. */
  function Rotated(target: seq<Slot>, m: nat): (r: seq<Slot>)
    ensures |r| == |target|
  {
    if target == [] then []
    else
      var cut := |target| - m % |target|;
      target[cut..] + target[..cut]
  }

  function Plan(current: seq<Option<Slot>>, target: seq<Slot>): seq<ShuffleOp> {
    if AlreadyThere(current, target) then []
    else if target == [] then Pops(|current|)
    else Loads(current, Rotated(target, |current|)) + Drains(|current|, |target|)
  }

  // ---------------------------------------------------------------------------
  // The planning loop
  // ---------------------------------------------------------------------------

  lemma PopsGrow(m: nat)
    ensures Pops(m) + [Pop] == Pops(m + 1)
  {
    if m > 0 {
      PopsGrow(m - 1);
    }
  }

  lemma DrainsGrow(m: nat, n: nat)
    ensures Drains(m, n) + [Swap(n), Pop] == Drains(m + 1, n)
  {
    if m > 0 {
      DrainsGrow(m - 1, n);
    }
  }

  /** Plan a sequence of operations that transforms `current` into `target`. */
  method PlanShuffle(current: seq<Option<Slot>>, target: seq<Slot>) returns (ops: seq<ShuffleOp>)
    ensures ops == Plan(current, target)
  {
    if AlreadyThere(current, target) {
      return [];
    }
    var m, n := |current|, |target|;
    if n == 0 {
      ops := AllPops(m);
      return;
    }
    ops := PlanLoads(current, target);
    ops := AppendDrains(ops, m, n);
  }

  method AllPops(m: nat) returns (ops: seq<ShuffleOp>)
    ensures ops == Pops(m)
  {
    ops := [];
    for i := 0 to m
      invariant ops == Pops(i)
    {
      PopsGrow(i);
      ops := ops + [Pop];
    }
  }

  /** The first loop: duplicate or load the rotated target on top, deepest item first. */
  method PlanLoads(current: seq<Option<Slot>>, target: seq<Slot>) returns (ops: seq<ShuffleOp>)
    requires target != []
    ensures ops == Loads(current, Rotated(target, |current|))
  {
    hide Loads, Rotated, Fetch;
    var n := |target|;
    ops := [];
    var sim := current;
    ghost var pre := Rotated(target, |current|);
    assert pre[..n] == pre;
    var j := n;
    while j > 0
      invariant 0 <= j <= n
      invariant ops + Loads(sim, pre[..j]) == Loads(current, pre)
    {
      j := j - 1;
      var t := RotatedItem(target, |current|, j);
      LoadsLast(sim, pre, j);
      ops := ops + [Fetch(sim, t)];
      sim := [Some(t)] + sim;
    }
    LoadsNone(sim);
  }

  lemma LoadsNone(sim: seq<Option<Slot>>)
    ensures Loads(sim, []) == []
  {
  }

  lemma LoadsLast(sim: seq<Option<Slot>>, pre: seq<Slot>, j: nat)
    requires j < |pre|
    ensures Loads(sim, pre[..j + 1]) == [Fetch(sim, pre[j])] + Loads([Some(pre[j])] + sim, pre[..j])
  {
    assert pre[..j + 1][..j] == pre[..j];
  }

  /** The second loop: `m` times SWAP n and POP. */
  method AppendDrains(loads: seq<ShuffleOp>, m: nat, n: nat) returns (ops: seq<ShuffleOp>)
    ensures ops == loads + Drains(m, n)
  {
    ops := loads;
    var i := 0;
    while i < m
      invariant 0 <= i <= m
      invariant ops == loads + Drains(i, n)
    {
      DrainsGrow(i, n);
      ops := ops + [Swap(n)];
      ops := ops + [Pop];
      i := i + 1;
    }
  }

  /** The item of the target that belongs at place `j` before the drain turns everything. */
  function RotatedItem(target: seq<Slot>, m: nat, j: nat): (t: Slot)
    requires j < |target|
    ensures t == Rotated(target, m)[j]
  {
    var n := |target|;
    var rotation := m % n;
    RotatedIndex(j, rotation, n);
    target[(j + n - rotation) % n]
  }

  lemma RotatedIndex(j: nat, r: nat, n: nat)
    requires j < n && r < n
    ensures (j + n - r) % n == if j < r then j + n - r else j - r
  {
    if j < r {
      RemainderUnique(j + n - r, n, 0, j + n - r);
    } else {
      RemainderUnique(j + n - r, n, 1, j - r);
    }
  }

  // ---------------------------------------------------------------------------
  // Emission
  // ---------------------------------------------------------------------------

  /** Emitted code, and whether all of it was emitted: a DUP deeper than 16 is dropped silently. */
  datatype Emitted = Emitted(code: seq<Asm>, whole: bool)

  function EmitOp(op: ShuffleOp, base: nat): Result<Emitted> {
    match op
    case Dup(n) => (
      match DupForPosition(n)
      case Some(dup) => Ok(Emitted([Do(dup)], true))
      case None => Ok(Emitted([], false)))
    case Swap(n) => (
      match SwapForPosition(n)
      case Some(swap) => Ok(Emitted([Do(swap)], true))
      case None => Err(DepthPanic))
    case Pop => Ok(Emitted([Do(POP)], true))
    case MLoad(slot) => Ok(Emitted([PushWord(MemoryOffset(base, slot)), Do(MLOAD)], true))
    case MStore(slot) => Ok(Emitted([PushWord(MemoryOffset(base, slot)), Do(MSTORE)], true))
  }

  function EmitShuffle(ops: seq<ShuffleOp>, base: nat): Result<Emitted> {
    if ops == [] then Ok(Emitted([], true))
    else
      var head :- EmitOp(ops[0], base);
      var tail :- EmitShuffle(ops[1..], base);
      Ok(Emitted(head.code + tail.code, head.whole && tail.whole))
  }

  lemma {:induction false} EmitAppend(a: seq<ShuffleOp>, b: seq<ShuffleOp>, base: nat)
    ensures EmitShuffle(a + b, base).Ok? <==> EmitShuffle(a, base).Ok? && EmitShuffle(b, base).Ok?
    ensures EmitShuffle(a + b, base).Ok? ==>
              var x, y, z := EmitShuffle(a, base).value, EmitShuffle(b, base).value, EmitShuffle(a + b, base).value;
              z.code == x.code + y.code && z.whole == (x.whole && y.whole)
    decreases |a|
  {
    if a == [] {
      assert a + b == b;
    } else {
      assert (a + b)[1..] == a[1..] + b && (a + b)[0] == a[0];
      EmitAppend(a[1..], b, base);
    }
  }

  // ---------------------------------------------------------------------------
  // What the plan does
  // ---------------------------------------------------------------------------

  /** Where the shuffler finds a slot's value: its first place on the stack, else its memory word. */
  function Home(current: seq<Option<Slot>>, s: Local, base: nat, t: Slot): Word
    requires |current| <= |s.stack|
  {
    match FirstIndex(current, Some(t))
    case Some(i) => s.stack[i]
    case None => Load(s.memory, MemoryOffset(base, t))
  }

  /** A slot that sits in several places has the same value in all of them. */
  ghost predicate Consistent(current: seq<Option<Slot>>, s: Local, base: nat)
    requires |current| <= |s.stack|
  {
    forall i :: 0 <= i < |current| && current[i].Some? ==> s.stack[i] == Home(current, s, base, current[i].value)
  }

  /** Every slot's value, for a valuation of the slots. */
  function Values(slots: seq<Slot>, h: Slot -> Word): (r: seq<Word>)
    ensures |r| == |slots|
    ensures forall i :: 0 <= i < |slots| ==> r[i] == h(slots[i])
  {
    seq(|slots|, i requires 0 <= i < |slots| => h(slots[i]))
  }

  /** `h` gives every slot its home value. */
  ghost predicate Homes(current: seq<Option<Slot>>, s: Local, base: nat, h: Slot -> Word) {
    |current| <= |s.stack| && forall t :: h(t) == Home(current, s, base, t)
  }

  lemma {:induction false} LoadsEmit(sim: seq<Option<Slot>>, pre: seq<Slot>, base: nat)
    ensures EmitShuffle(Loads(sim, pre), base).Ok?
    ensures |sim| + |pre| <= 17 ==> EmitShuffle(Loads(sim, pre), base).value.whole
    decreases |pre|
  {
    if pre != [] {
      var t := pre[|pre| - 1];
      var rest := Loads([Some(t)] + sim, pre[..|pre| - 1]);
      LoadsEmit([Some(t)] + sim, pre[..|pre| - 1], base);
      assert Loads(sim, pre)[1..] == rest;
    }
  }

  /** One fetch puts the slot's home value on top and moves no home. */
  lemma FetchRun(sim: seq<Option<Slot>>, t: Slot, base: nat, labels: Label -> Word, s: Local, h: Slot -> Word)
    requires Homes(sim, s, base, h)
    requires EmitOp(Fetch(sim, t), base).value.whole
    ensures Run(EmitOp(Fetch(sim, t), base).value.code, labels, s) == Some(s.(stack := [h(t)] + s.stack))
    ensures Homes([Some(t)] + sim, s.(stack := [h(t)] + s.stack), base, h)
  {
    match FirstIndex(sim, Some(t)) {
      case Some(i) => RunDup(i + 1, labels, s);
      case None => RunPushLoad(MemoryOffset(base, t), labels, s);
    }
    HomesKept(sim, t, base, s, h);
  }

  lemma HomesKept(sim: seq<Option<Slot>>, t: Slot, base: nat, s: Local, h: Slot -> Word)
    requires Homes(sim, s, base, h)
    ensures Homes([Some(t)] + sim, s.(stack := [h(t)] + s.stack), base, h)
  {
    assert ([Some(t)] + sim)[1..] == sim;
  }

  lemma {:induction false} LoadsRun(
      sim: seq<Option<Slot>>, pre: seq<Slot>, base: nat, labels: Label -> Word, s: Local, h: Slot -> Word)
    requires Homes(sim, s, base, h)
    requires EmitShuffle(Loads(sim, pre), base).Ok? && EmitShuffle(Loads(sim, pre), base).value.whole
    ensures Run(EmitShuffle(Loads(sim, pre), base).value.code, labels, s)
         == Some(s.(stack := Values(pre, h) + s.stack))
    decreases |pre|
  {
    if pre == [] {
      assert Values(pre, h) + s.stack == s.stack;
    } else {
      var t, init := pre[|pre| - 1], pre[..|pre| - 1];
      var more := EmitShuffle(Loads([Some(t)] + sim, init), base);
      LoadsCode(sim, pre, base);
      FetchThen(sim, t, more.value.code, base, labels, s, h);
      LoadsRun([Some(t)] + sim, init, base, labels, s.(stack := [h(t)] + s.stack), h);
      ValuesLast(pre, h, s.stack);
    }
  }

  lemma FetchThen(
      sim: seq<Option<Slot>>, t: Slot, more: seq<Asm>, base: nat, labels: Label -> Word, s: Local, h: Slot -> Word)
    requires Homes(sim, s, base, h)
    requires EmitOp(Fetch(sim, t), base).value.whole
    ensures Run(EmitOp(Fetch(sim, t), base).value.code + more, labels, s)
         == Run(more, labels, s.(stack := [h(t)] + s.stack))
    ensures Homes([Some(t)] + sim, s.(stack := [h(t)] + s.stack), base, h)
  {
    FetchRun(sim, t, base, labels, s, h);
    RunAppend(EmitOp(Fetch(sim, t), base).value.code, more, labels, s);
  }

  lemma ValuesLast(pre: seq<Slot>, h: Slot -> Word, rest: seq<Word>)
    requires pre != []
    ensures Values(pre[..|pre| - 1], h) + ([h(pre[|pre| - 1])] + rest) == Values(pre, h) + rest
  {
  }

  lemma LoadsCode(sim: seq<Option<Slot>>, pre: seq<Slot>, base: nat)
    requires pre != [] && EmitShuffle(Loads(sim, pre), base).Ok?
    ensures var t, init := pre[|pre| - 1], pre[..|pre| - 1];
            var head, tail := EmitOp(Fetch(sim, t), base), EmitShuffle(Loads([Some(t)] + sim, init), base);
            head.Ok? && tail.Ok? &&
            EmitShuffle(Loads(sim, pre), base).value.code == head.value.code + tail.value.code &&
            EmitShuffle(Loads(sim, pre), base).value.whole == (head.value.whole && tail.value.whole)
  {
    assert Loads(sim, pre)[1..] == Loads([Some(pre[|pre| - 1])] + sim, pre[..|pre| - 1]);
  }

  function RotateLeft(s: seq<Word>, m: nat): (r: seq<Word>)
    requires s != []
    ensures |r| == |s|
    decreases m
  {
    if m == 0 then s else RotateLeft(s[1..] + [s[0]], m - 1)
  }

  lemma {:induction false} RotateLeftSlices(s: seq<Word>, m: nat, r: nat)
    requires s != [] && r < |s| && m % |s| == r
    ensures RotateLeft(s, m) == s[r..] + s[..r]
    decreases m
  {
    var n := |s|;
    if m == 0 {
      RemainderUnique(0, n, 0, 0);
    } else {
      var t := s[1..] + [s[0]];
      var q := m / n;
      assert m == n * q + r;
      if r > 0 {
        RemainderUnique(m - 1, n, q, r - 1);
        RotateLeftSlices(t, m - 1, r - 1);
      } else {
        assert m - 1 == n * (q - 1) + (n - 1) by {
          assert n * (q - 1) == n * q - n;
        }
        RemainderUnique(m - 1, n, q - 1, n - 1);
        RotateLeftSlices(t, m - 1, n - 1);
      }
    }
  }

  /** `SWAP n; POP` turns the top `n` items once and removes the item under them. */
  lemma TurnOnce(top: seq<Word>, under: seq<Word>, rest: seq<Word>, labels: Label -> Word, s: Local)
    requires 1 <= |top| <= 16 && under != []
    requires s.stack == top + under + rest
    ensures Run([Do(SWAP(|top|)), Do(POP)], labels, s)
         == Some(s.(stack := (top[1..] + [top[0]]) + under[1..] + rest))
  {
    var n := |top|;
    RunSwapPop(n, labels, s);
    assert s.stack[1..][n - 1 := s.stack[0]] == (top[1..] + [top[0]]) + under[1..] + rest;
  }

  lemma SwapPopEmit(n: nat, base: nat)
    ensures EmitShuffle([Swap(n), Pop], base).Ok? <==> 1 <= n <= 16
    ensures 1 <= n <= 16 ==> EmitShuffle([Swap(n), Pop], base) == Ok(Emitted([Do(SWAP(n)), Do(POP)], true))
  {
    EmitOne(Swap(n), base);
    EmitOne(Pop, base);
    EmitAppend([Swap(n)], [Pop], base);
    assert [Swap(n), Pop] == [Swap(n)] + [Pop];
    if 1 <= n <= 16 {
      assert [Do(SWAP(n))] + [Do(POP)] == [Do(SWAP(n)), Do(POP)];
    }
  }

  lemma EmitOne(op: ShuffleOp, base: nat)
    ensures EmitShuffle([op], base) == EmitOp(op, base)
  {
    assert [op][1..] == [];
    if EmitOp(op, base).Ok? {
      var code := EmitOp(op, base).value.code;
      assert code + [] == code;
    }
  }

  lemma {:induction false} DrainsRun(
      top: seq<Word>, under: seq<Word>, rest: seq<Word>, base: nat, labels: Label -> Word, s: Local)
    requires 1 <= |top| <= 16
    requires s.stack == top + under + rest
    ensures EmitShuffle(Drains(|under|, |top|), base).Ok? && EmitShuffle(Drains(|under|, |top|), base).value.whole
    ensures Run(EmitShuffle(Drains(|under|, |top|), base).value.code, labels, s)
         == Some(s.(stack := RotateLeft(top, |under|) + rest))
    decreases |under|
  {
    var n := |top|;
    if under == [] {
      assert s.stack == top + rest;
    } else {
      var top', under' := top[1..] + [top[0]], under[1..];
      var s' := s.(stack := top' + under' + rest);
      var more := Drains(|under'|, n);
      DrainsRun(top', under', rest, base, labels, s');
      DrainsCode(|under|, n, base);
      TurnOnce(top, under, rest, labels, s);
      hide EmitShuffle, Run, Drains;
      RunAppend([Do(SWAP(n)), Do(POP)], EmitShuffle(more, base).value.code, labels, s);
    }
  }

  lemma DrainsCode(m: nat, n: Depth, base: nat)
    requires m > 0 && EmitShuffle(Drains(m - 1, n), base).Ok?
    ensures EmitShuffle(Drains(m, n), base).Ok?
    ensures EmitShuffle(Drains(m, n), base).value.code
         == [Do(SWAP(n)), Do(POP)] + EmitShuffle(Drains(m - 1, n), base).value.code
    ensures EmitShuffle(Drains(m, n), base).value.whole == EmitShuffle(Drains(m - 1, n), base).value.whole
  {
    hide EmitShuffle;
    SwapPopEmit(n, base);
    EmitAppend([Swap(n), Pop], Drains(m - 1, n), base);
  }

  lemma {:induction false} PopsRun(m: nat, base: nat, labels: Label -> Word, s: Local)
    requires m <= |s.stack|
    ensures EmitShuffle(Pops(m), base).Ok? && EmitShuffle(Pops(m), base).value.whole
    ensures Run(EmitShuffle(Pops(m), base).value.code, labels, s) == Some(s.(stack := s.stack[m..]))
  {
    if m > 0 {
      var s1 := s.(stack := s.stack[1..]);
      PopsRun(m - 1, base, labels, s1);
      assert Pops(m)[1..] == Pops(m - 1);
      assert s1.stack[m - 1..] == s.stack[m..];
      var code := EmitShuffle(Pops(m), base).value.code;
      assert code == [Do(POP)] + EmitShuffle(Pops(m - 1), base).value.code;
      assert code[1..] == EmitShuffle(Pops(m - 1), base).value.code;
    } else {
      assert s.stack[0..] == s.stack;
    }
  }

  /**
   * The shuffle is correct for every current and target layout: it replaces the
   * current layout by the target's values, each taken from its home, and touches
   * nothing underneath, provided no DUP was too deep to be emitted.
   */
  lemma ShuffleRun(
      current: seq<Option<Slot>>, target: seq<Slot>, base: nat, labels: Label -> Word, s: Local, h: Slot -> Word)
    requires Homes(current, s, base, h) && Consistent(current, s, base)
    requires EmitShuffle(Plan(current, target), base).Ok?
    requires EmitShuffle(Plan(current, target), base).value.whole
    ensures Run(EmitShuffle(Plan(current, target), base).value.code, labels, s)
         == Some(s.(stack := Values(target, h) + s.stack[|current|..]))
  {
    var m, n := |current|, |target|;
    var rest := s.stack[m..];
    if AlreadyThere(current, target) {
      assert Values(target, h) == s.stack[..m];
      assert s.stack[..m] + rest == s.stack;
    } else if target == [] {
      PopsRun(m, base, labels, s);
      assert Values(target, h) + rest == rest;
    } else {
      LoadAndDrain(current, target, base, labels, s, h);
    }
  }

  lemma LoadAndDrain(
      current: seq<Option<Slot>>, target: seq<Slot>, base: nat, labels: Label -> Word, s: Local, h: Slot -> Word)
    requires Homes(current, s, base, h) && target != []
    requires var ops := Loads(current, Rotated(target, |current|)) + Drains(|current|, |target|);
             EmitShuffle(ops, base).Ok? && EmitShuffle(ops, base).value.whole
    ensures var ops := Loads(current, Rotated(target, |current|)) + Drains(|current|, |target|);
            Run(EmitShuffle(ops, base).value.code, labels, s) ==
            Some(s.(stack := Values(target, h) + s.stack[|current|..]))
  {
    hide Run, EmitShuffle, Home, Rotated, Values, RotateLeft;
    var m, n := |current|, |target|;
    var loads := Loads(current, Rotated(target, m));
    var top := Values(Rotated(target, m), h);
    EmitAppend(loads, Drains(m, n), base);
    LoadsRun(current, Rotated(target, m), base, labels, s, h);
    RunAppend(EmitShuffle(loads, base).value.code, EmitShuffle(Drains(m, n), base).value.code, labels, s);
    if m > 0 {
      DrainsNeedSwap(m, n, base);
    }
    assert s.stack == s.stack[..m] + s.stack[m..];
    assert top + s.stack == top + s.stack[..m] + s.stack[m..];
    DrainAll(top, s.stack[..m], s.stack[m..], base, labels, s.(stack := top + s.stack));
    RotationUndone(target, m, h);
  }

  lemma DrainAll(top: seq<Word>, under: seq<Word>, rest: seq<Word>, base: nat, labels: Label -> Word, s: Local)
    requires 1 <= |top| && (under != [] ==> |top| <= 16)
    requires s.stack == top + under + rest
    ensures EmitShuffle(Drains(|under|, |top|), base).Ok?
    ensures Run(EmitShuffle(Drains(|under|, |top|), base).value.code, labels, s)
         == Some(s.(stack := RotateLeft(top, |under|) + rest))
  {
    if under == [] {
      assert s.stack == top + rest;
    } else {
      DrainsRun(top, under, rest, base, labels, s);
    }
  }

  lemma DrainsNeedSwap(m: nat, n: nat, base: nat)
    requires m > 0 && n > 0
    requires EmitShuffle(Drains(m, n), base).Ok?
    ensures n <= 16
  {
    SwapPopEmit(n, base);
    EmitAppend([Swap(n), Pop], Drains(m - 1, n), base);
  }

  lemma RotationUndone(target: seq<Slot>, m: nat, h: Slot -> Word)
    requires target != []
    ensures RotateLeft(Values(Rotated(target, m), h), m) == Values(target, h)
  {
    var n, r := |target|, m % |target|;
    var all := Values(target, h);
    var top := Values(Rotated(target, m), h);
    assert top == all[n - r..] + all[..n - r];
    RotateLeftSlices(top, m, r);
    assert top[r..] + top[..r] == all;
  }

  // ---------------------------------------------------------------------------
  // When it is emitted in full
  // ---------------------------------------------------------------------------

  /** With at most 17 items on both sides together every operation has an opcode. */
  lemma ShuffleFits(current: seq<Option<Slot>>, target: seq<Slot>, base: nat)
    requires |current| + |target| <= 17
    ensures EmitShuffle(Plan(current, target), base).Ok? && EmitShuffle(Plan(current, target), base).value.whole
  {
    var m, n := |current|, |target|;
    if AlreadyThere(current, target) {
    } else if target == [] {
      PopsRun(m, base, _ => 0, Local(seq(m, _ => 0), map[], map[]));
    } else {
      var pre := Rotated(target, m);
      EmitAppend(Loads(current, pre), Drains(m, n), base);
      LoadsEmit(current, pre, base);
      if m > 0 {
        DrainsEmit(m, n, base);
      }
    }
  }

  lemma {:induction false} DrainsEmit(m: nat, n: nat, base: nat)
    requires 1 <= n <= 16
    ensures EmitShuffle(Drains(m, n), base).Ok? && EmitShuffle(Drains(m, n), base).value.whole
  {
    if m > 0 {
      SwapPopEmit(n, base);
      EmitAppend([Swap(n), Pop], Drains(m - 1, n), base);
      DrainsEmit(m - 1, n, base);
    }
  }

  /** Net stack growth of an operation, and of a plan, when everything is emitted. */
  function OpGrowth(op: ShuffleOp): int {
    match op
    case Dup(_) => 1
    case MLoad(_) => 1
    case Swap(_) => 0
    case Pop => -1
    case MStore(_) => -1
  }

  function Growth(ops: seq<ShuffleOp>): int {
    if ops == [] then 0 else OpGrowth(ops[0]) + Growth(ops[1..])
  }

  lemma OpHeight(op: ShuffleOp, base: nat, labels: Label -> Word, s: Local)
    requires EmitOp(op, base).Ok?
    requires Run(EmitOp(op, base).value.code, labels, s).Some?
    ensures |Run(EmitOp(op, base).value.code, labels, s).value.stack|
         == |s.stack| + if EmitOp(op, base).value.whole then OpGrowth(op) else 0
    ensures !EmitOp(op, base).value.whole ==> OpGrowth(op) == 1
  {
    var code := EmitOp(op, base).value.code;
    if |code| == 1 {
      RunOne(code[0], labels, s);
    } else if |code| == 2 {
      RunTwo(code[0], code[1], labels, s);
    }
  }

  lemma {:induction false} HeightTells(ops: seq<ShuffleOp>, base: nat, labels: Label -> Word, s: Local)
    requires EmitShuffle(ops, base).Ok?
    requires Run(EmitShuffle(ops, base).value.code, labels, s).Some?
    ensures var h := |Run(EmitShuffle(ops, base).value.code, labels, s).value.stack|;
            h <= |s.stack| + Growth(ops) &&
            (EmitShuffle(ops, base).value.whole <==> h == |s.stack| + Growth(ops))
    decreases |ops|
  {
    if ops != [] {
      var head, tail := EmitOp(ops[0], base).value, EmitShuffle(ops[1..], base).value;
      RunAppend(head.code, tail.code, labels, s);
      OpHeight(ops[0], base, labels, s);
      HeightTells(ops[1..], base, labels, Run(head.code, labels, s).value);
    }
  }

  lemma {:induction false} GrowthAppend(a: seq<ShuffleOp>, b: seq<ShuffleOp>)
    ensures Growth(a + b) == Growth(a) + Growth(b)
    decreases |a|
  {
    if a == [] {
      assert a + b == b;
    } else {
      assert (a + b)[1..] == a[1..] + b;
      GrowthAppend(a[1..], b);
    }
  }

  lemma {:induction false} GrowthOfLoads(sim: seq<Option<Slot>>, pre: seq<Slot>)
    ensures Growth(Loads(sim, pre)) == |pre|
    decreases |pre|
  {
    if pre != [] {
      var t := pre[|pre| - 1];
      GrowthOfLoads([Some(t)] + sim, pre[..|pre| - 1]);
      assert Loads(sim, pre)[1..] == Loads([Some(t)] + sim, pre[..|pre| - 1]);
    }
  }

  lemma {:induction false} GrowthOfDrains(m: nat, n: nat)
    ensures Growth(Drains(m, n)) == -(m as int) && Growth(Pops(m)) == -(m as int)
  {
    if m > 0 {
      GrowthOfDrains(m - 1, n);
      GrowthAppend([Swap(n), Pop], Drains(m - 1, n));
      assert [Swap(n), Pop][1..] == [Pop] && [Pop][1..] == [];
      assert Pops(m)[1..] == Pops(m - 1);
    }
  }

  /**
   * Emission drops a DUP that is too deep without an error. Exactly when that
   * happens the emitted shuffle is wrong, on every stack and memory.
   */
  lemma ShuffleExact(
      current: seq<Option<Slot>>, target: seq<Slot>, base: nat, labels: Label -> Word, s: Local, h: Slot -> Word)
    requires Homes(current, s, base, h) && Consistent(current, s, base)
    requires EmitShuffle(Plan(current, target), base).Ok?
    ensures var e := EmitShuffle(Plan(current, target), base).value;
            var wanted := s.(stack := Values(target, h) + s.stack[|current|..]);
            e.whole <==> Run(e.code, labels, s) == Some(wanted)
  {
    var e := EmitShuffle(Plan(current, target), base).value;
    if e.whole {
      ShuffleRun(current, target, base, labels, s, h);
    } else if Run(e.code, labels, s).Some? {
      HeightTells(Plan(current, target), base, labels, s);
      if AlreadyThere(current, target) {
      } else if target == [] {
        GrowthOfDrains(|current|, 1);
      } else {
        GrowthAppend(Loads(current, Rotated(target, |current|)), Drains(|current|, |target|));
        GrowthOfLoads(current, Rotated(target, |current|));
        GrowthOfDrains(|current|, |target|);
      }
    }
  }

  /** Sixteen items on the stack, two wanted: the second DUP would be DUP17 and is dropped. */
  lemma DroppedDup(current: seq<Option<Slot>>, target: seq<Slot>, base: nat)
    requires current == seq(16, i => Some(i)) && target == [15, 14]
    ensures EmitShuffle(Plan(current, target), base).Ok? && !EmitShuffle(Plan(current, target), base).value.whole
  {
    RemainderUnique(16, 2, 8, 0);
    assert Rotated(target, 16) == [15, 14];
    SecondFetch(current, base);
    DrainsEmit(16, 2, base);
    EmitAppend(Loads(current, [15, 14]), Drains(16, 2), base);
  }

  lemma SecondFetch(current: seq<Option<Slot>>, base: nat)
    requires current == seq(16, i => Some(i))
    ensures EmitShuffle(Loads(current, [15, 14]), base).Ok?
    ensures !EmitShuffle(Loads(current, [15, 14]), base).value.whole
  {
    LoadsEmit(current, [15, 14], base);
    LoadsCode(current, [15, 14], base);
    var top := [Some(14)] + current;
    assert [15, 14][..1] == [15];
    LoadsCode(top, [15], base);
    assert top[16] == Some(15);
    var r := FirstIndex(top, Some(15));
    assert Some(15) in top;
    assert r.value == 16;
  }

  // ---------------------------------------------------------------------------
  // Drains
  // ---------------------------------------------------------------------------

  function DrainCode(n: nat): seq<Asm> {
    if n == 0 then [] else DrainCode(n - 1) + [Do(POP)]
  }

  function DrainBelowCode(n: nat): seq<Asm> {
    if n == 0 then [] else DrainBelowCode(n - 1) + [Do(SWAP(1)), Do(POP)]
  }

  /** A drain removes exactly the items on top. */
  lemma {:induction false} DrainRun(top: seq<Word>, rest: seq<Word>, labels: Label -> Word, s: Local)
    requires s.stack == top + rest
    ensures Run(DrainCode(|top|), labels, s) == Some(s.(stack := rest))
    decreases |top|
  {
    if top == [] {
      assert s.stack == rest;
    } else {
      var n := |top| - 1;
      var last := s.(stack := [top[n]] + rest);
      assert top[..n] + ([top[n]] + rest) == s.stack;
      DrainRun(top[..n], [top[n]] + rest, labels, s);
      RunPop(labels, last);
      assert last.stack[1..] == rest;
      RunAppend(DrainCode(n), [Do(POP)], labels, s);
    }
  }

  /** A drain below the top removes exactly the items under it. */
  lemma {:induction false} DrainBelowRun(w: Word, below: seq<Word>, rest: seq<Word>, labels: Label -> Word, s: Local)
    requires s.stack == [w] + below + rest
    ensures Run(DrainBelowCode(|below|), labels, s) == Some(s.(stack := [w] + rest))
    decreases |below|
  {
    if below == [] {
      assert s.stack == [w] + rest;
    } else {
      var n := |below| - 1;
      var last := s.(stack := [w] + [below[n]] + rest);
      assert [w] + below[..n] + ([below[n]] + rest) == s.stack;
      DrainBelowRun(w, below[..n], [below[n]] + rest, labels, s);
      assert [w] + ([below[n]] + rest) == last.stack;
      TurnOnce([w], [below[n]], rest, labels, last);
      assert ([w][1..] + [[w][0]]) + [below[n]][1..] + rest == [w] + rest;
      RunAppend(DrainBelowCode(n), [Do(SWAP(1)), Do(POP)], labels, s);
    }
  }
}
