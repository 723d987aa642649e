/**
 * The stack allocator (codegen/src/analysis/stack_allocator.rs): greedy colouring
 * of live intervals in order of their starts. Slots live together never share a
 * stack position, and a slot is sent to memory only when sixteen intervals meet.
 */
module Allocator {
  import opened Sequences
  import opened Lowered
  import opened LiveSets
  import opened Graphs
  import opened Liveness
  import opened Intervals
  import opened Codegen

  const MAX_STACK_REGS: nat := 15

  // ---------------------------------------------------------------------------
  // Sorting
  // ---------------------------------------------------------------------------

  type Key = (nat, nat)

  predicate KeyLe(a: Key, b: Key) {
    a.0 < b.0 || (a.0 == b.0 && a.1 <= b.1)
  }

  ghost predicate SortedBy(s: seq<Slot>, keys: map<Slot, Key>) {
    && (forall i :: 0 <= i < |s| ==> s[i] in keys)
    && (forall i, j :: 0 <= i < j < |s| ==> KeyLe(keys[s[i]], keys[s[j]]))
  }

  /** The slots in order of their keys; slots with equal keys come in any order. */
  method SortByKey(slots: set<Slot>, keys: map<Slot, Key>) returns (r: seq<Slot>)
    requires forall s :: s in slots ==> s in keys
    ensures Distinct(r) && ToSet(r) == slots && SortedBy(r, keys)
  {
    r := [];
    var rest := slots;
    while rest != {}
      invariant Distinct(r) && ToSet(r) !! rest && ToSet(r) + rest == slots && SortedBy(r, keys)
      decreases rest
    {
      var x :| x in rest;
      var i := 0;
      while i < |r| && KeyLe(keys[r[i]], keys[x])
        invariant i <= |r| && forall j :: 0 <= j < i ==> KeyLe(keys[r[j]], keys[x])
      {
        i := i + 1;
      }
      InsertKeeps(r, keys, x, i);
      r, rest := r[..i] + [x] + r[i..], rest - {x};
    }
  }

  lemma InsertKeeps(s: seq<Slot>, keys: map<Slot, Key>, x: Slot, i: nat)
    requires SortedBy(s, keys) && Distinct(s) && x in keys && x !in s && i <= |s|
    requires forall j :: 0 <= j < i ==> KeyLe(keys[s[j]], keys[x])
    requires i < |s| ==> !KeyLe(keys[s[i]], keys[x])
    ensures SortedBy(s[..i] + [x] + s[i..], keys) && Distinct(s[..i] + [x] + s[i..])
    ensures ToSet(s[..i] + [x] + s[i..]) == ToSet(s) + {x}
  {
    var r := s[..i] + [x] + s[i..];
    InsertAt(s, x, i);
    forall j, k | 0 <= j < k < |r| ensures KeyLe(keys[r[j]], keys[r[k]]) && r[j] != r[k] {
      if j < i && k > i {
        assert KeyLe(keys[s[j]], keys[s[k - 1]]);
      }
    }
  }

  lemma InsertAt(s: seq<Slot>, x: Slot, i: nat)
    requires i <= |s|
    ensures var r := s[..i] + [x] + s[i..];
            && |r| == |s| + 1 && ToSet(r) == ToSet(s) + {x}
            && forall j :: 0 <= j < |r| ==> r[j] == if j < i then s[j] else if j == i then x else s[j - 1]
  {
    assert s == s[..i] + s[i..];
  }

  // ---------------------------------------------------------------------------
  // Colouring
  // ---------------------------------------------------------------------------

  /** Overlapping intervals have different colours. */
  ghost predicate Proper(intervals: map<Slot, Interval>, color: map<Slot, nat>) {
    && color.Keys <= intervals.Keys
    && forall a, b :: a in color && b in color && a != b && intervals[a].Overlaps(intervals[b]) ==> color[a] != color[b]
  }

  /** The order of colouring: by start, and by number among equals. */
  predicate Earlier(intervals: map<Slot, Interval>, t: Slot, s: Slot) {
    && t in intervals && s in intervals
    && (intervals[t].start < intervals[s].start || (intervals[t].start == intervals[s].start && t < s))
  }

  ghost predicate LowerColourMeets(intervals: map<Slot, Interval>, color: map<Slot, nat>, a: Slot, c: nat)
    requires a in intervals && color.Keys <= intervals.Keys
  {
    exists b :: b in color && color[b] == c && Earlier(intervals, b, a) && intervals[b].Contains(intervals[a].start)
  }

  /** Every colour below a slot's own is taken, where the slot's interval starts, by a slot that comes earlier. */
  ghost predicate Greedy(intervals: map<Slot, Interval>, color: map<Slot, nat>)
    requires color.Keys <= intervals.Keys
  {
    forall a, c: nat {:trigger LowerColourMeets(intervals, color, a, c)} ::
      a in color && c < color[a] ==> LowerColourMeets(intervals, color, a, c)
  }

  function UsedColours(intervals: map<Slot, Interval>, color: map<Slot, nat>, iv: Interval): set<nat>
    requires color.Keys <= intervals.Keys
  {
    set b | b in color && intervals[b].Overlaps(iv) :: color[b]
  }

  method LowestFree(used: set<nat>) returns (c: nat)
    ensures c !in used && forall d: nat :: d < c ==> d in used
  {
    c := 0;
    ghost var untried := used;
    while c in used
      invariant forall d: nat :: d < c ==> d in used
      invariant forall d: nat :: d >= c && d in used ==> d in untried
      decreases untried
    {
      c, untried := c + 1, untried - {c};
    }
  }

  ghost predicate StartsSorted(intervals: map<Slot, Interval>, order: seq<Slot>) {
    && (forall i :: 0 <= i < |order| ==> order[i] in intervals)
    && (forall i, j :: 0 <= i < j < |order| ==> Earlier(intervals, order[i], order[j]))
  }

  lemma ColourStep(intervals: map<Slot, Interval>, color: map<Slot, nat>, order: seq<Slot>, k: nat, c: nat)
    requires StartsSorted(intervals, order) && Distinct(order) && k < |order|
    requires color.Keys == ToSet(order[..k]) && color.Keys <= intervals.Keys
    requires Proper(intervals, color) && Greedy(intervals, color)
    requires c !in UsedColours(intervals, color, intervals[order[k]])
    requires forall d: nat :: d < c ==> d in UsedColours(intervals, color, intervals[order[k]])
    ensures color[order[k] := c].Keys == ToSet(order[..k + 1])
    ensures Proper(intervals, color[order[k] := c]) && Greedy(intervals, color[order[k] := c])
  {
    var a := order[k];
    var color' := color[a := c];
    assert order[..k + 1] == order[..k] + [a];
    assert a !in color by {
      assert forall i :: 0 <= i < k ==> order[..k][i] == order[i];
    }
    assert Proper(intervals, color') by {
      forall b | b in color && intervals[a].Overlaps(intervals[b]) ensures color[b] != c {
        assert color[b] in UsedColours(intervals, color, intervals[a]);
      }
    }
    forall s, d: nat | s in color' && d < color'[s] ensures LowerColourMeets(intervals, color', s, d) {
      if s == a {
        assert d in UsedColours(intervals, color, intervals[a]);
        var b :| b in color && intervals[b].Overlaps(intervals[a]) && color[b] == d;
        var i :| 0 <= i < k && order[..k][i] == b;
        assert Earlier(intervals, order[i], order[k]);
        assert b in color' && color'[b] == d;
      } else {
        assert LowerColourMeets(intervals, color, s, d);
        var b :| b in color && color[b] == d && Earlier(intervals, b, s) && intervals[b].Contains(intervals[s].start);
        assert b in color' && color'[b] == d;
      }
    }
  }

  function Location(c: nat): SlotLocation {
    if c < MAX_STACK_REGS then StackPos(c + 1) else Memory
  }

  /** Some index lies in the intervals of n slots. */
  ghost predicate Meet(intervals: map<Slot, Interval>, slots: set<Slot>, idx: nat) {
    forall s :: s in slots ==> s in intervals && intervals[s].Contains(idx)
  }

  ghost predicate PressureAtLeast(intervals: map<Slot, Interval>, n: nat) {
    exists slots, idx :: |slots| >= n && Meet(intervals, slots, idx)
  }

  /** Colours 0 .. c-1 are taken by c different slots whose intervals contain the start of `a`. */
  lemma {:induction false} LowerColours(intervals: map<Slot, Interval>, color: map<Slot, nat>, a: Slot, c: nat)
    returns (slots: set<Slot>)
    requires color.Keys <= intervals.Keys && Greedy(intervals, color) && a in color && c <= color[a]
    ensures |slots| == c && Meet(intervals, slots, intervals[a].start)
    ensures forall s :: s in slots ==> s in color && color[s] < c
  {
    if c == 0 {
      slots := {};
    } else {
      slots := LowerColours(intervals, color, a, c - 1);
      assert LowerColourMeets(intervals, color, a, c - 1);
      var b :| b in color && color[b] == c - 1 && Earlier(intervals, b, a)
        && intervals[b].Contains(intervals[a].start);
      slots := slots + {b};
    }
  }

  /** Colour c is used only if c + 1 intervals meet. */
  lemma ColourNeedsPressure(intervals: map<Slot, Interval>, color: map<Slot, nat>, a: Slot)
    requires color.Keys <= intervals.Keys && Greedy(intervals, color) && a in color
    ensures PressureAtLeast(intervals, color[a] + 1)
  {
    var slots := LowerColours(intervals, color, a, color[a]);
    assert a !in slots;
    assert |slots + {a}| == color[a] + 1 && Meet(intervals, slots + {a}, intervals[a].start);
  }

  /** Slots with different colours below n are at most n. */
  lemma {:induction false} Pigeonhole(color: map<Slot, nat>, slots: set<Slot>, n: nat)
    requires slots <= color.Keys
    requires forall a, b :: a in slots && b in slots && a != b ==> color[a] != color[b]
    requires forall a :: a in slots ==> color[a] < n
    ensures |slots| <= n
  {
    if n == 0 {
      assert slots == {};
    } else if a :| a in slots && color[a] == n - 1 {
      Pigeonhole(color, slots - {a}, n - 1);
    } else {
      Pigeonhole(color, slots, n - 1);
    }
  }

  /** Where n intervals meet, one of them has a colour of at least n - 1. */
  lemma PressureNeedsColours(intervals: map<Slot, Interval>, color: map<Slot, nat>, slots: set<Slot>, idx: nat)
    returns (a: Slot)
    requires color.Keys == intervals.Keys && Proper(intervals, color) && Meet(intervals, slots, idx) && slots != {}
    ensures a in slots && color[a] + 1 >= |slots|
  {
    forall a, b | a in slots && b in slots && a != b ensures color[a] != color[b] {
      assert intervals[a].Contains(idx) && intervals[b].Contains(idx);
    }
    if forall a :: a in slots ==> color[a] < |slots| - 1 {
      Pigeonhole(color, slots, |slots| - 1);
    }
    a :| a in slots && color[a] >= |slots| - 1;
  }

  ghost predicate PositionsDiffer(
      intervals: map<Slot, Interval>, assignment: map<Slot, SlotLocation>, a: Slot, b: Slot)
  {
    a in assignment && b in assignment && a in intervals && b in intervals && a != b && assignment[a].StackPos? ==>
      intervals[a].Overlaps(intervals[b]) ==> assignment[a] != assignment[b]
  }

  /** Slots whose intervals overlap never share a stack position. */
  ghost predicate Safe(intervals: map<Slot, Interval>, assignment: map<Slot, SlotLocation>) {
    && assignment.Keys == intervals.Keys
    && (forall s :: s in assignment && assignment[s].StackPos? ==> 1 <= assignment[s].n <= MAX_STACK_REGS)
    && (forall a, b {:trigger PositionsDiffer(intervals, assignment, a, b)} ::
        PositionsDiffer(intervals, assignment, a, b))
  }

  /** Spilling is exact: some slot goes to memory if and only if sixteen intervals meet. */
  lemma SpillExact(intervals: map<Slot, Interval>, color: map<Slot, nat>)
    requires color.Keys == intervals.Keys && Proper(intervals, color) && Greedy(intervals, color)
    ensures (exists s :: s in color && Location(color[s]) == Memory) <==> PressureAtLeast(intervals, MAX_STACK_REGS + 1)
  {
    if s :| s in color && Location(color[s]) == Memory {
      ColourNeedsPressure(intervals, color, s);
      var slots, idx :| |slots| >= color[s] + 1 && Meet(intervals, slots, idx);
      assert |slots| >= MAX_STACK_REGS + 1 && Meet(intervals, slots, idx);
    }
    if PressureAtLeast(intervals, MAX_STACK_REGS + 1) {
      var slots, idx :| |slots| >= MAX_STACK_REGS + 1 && Meet(intervals, slots, idx);
      var a := PressureNeedsColours(intervals, color, slots, idx);
      assert Location(color[a]) == Memory;
    }
  }

  /** Position n is taken, where the interval of `s` starts, by a slot that is coloured earlier. */
  ghost predicate TakenBefore(
      intervals: map<Slot, Interval>, assignment: map<Slot, SlotLocation>, s: Slot, n: nat)
    requires s in intervals && assignment.Keys <= intervals.Keys
  {
    exists t :: t in assignment && assignment[t] == StackPos(n) && Earlier(intervals, t, s)
      && intervals[t].Contains(intervals[s].start)
  }

  /** A slot takes the first position that is free where its interval starts, and memory if none of them is. */
  ghost predicate FitsFirst(intervals: map<Slot, Interval>, assignment: map<Slot, SlotLocation>, s: Slot)
    requires s in assignment && assignment.Keys <= intervals.Keys
  {
    match assignment[s]
    case StackPos(n) =>
      && 1 <= n <= MAX_STACK_REGS && !TakenBefore(intervals, assignment, s, n)
      && forall m: nat :: 1 <= m < n ==> TakenBefore(intervals, assignment, s, m)
    case Memory => forall m: nat :: 1 <= m <= MAX_STACK_REGS ==> TakenBefore(intervals, assignment, s, m)
  }

  ghost predicate FirstFit(intervals: map<Slot, Interval>, assignment: map<Slot, SlotLocation>) {
    assignment.Keys == intervals.Keys && forall s :: s in assignment ==> FitsFirst(intervals, assignment, s)
  }

  lemma {:induction false} SamePosition(
      intervals: map<Slot, Interval>, a: map<Slot, SlotLocation>, b: map<Slot, SlotLocation>, s: Slot)
    requires FirstFit(intervals, a) && FirstFit(intervals, b) && s in intervals
    ensures a[s] == b[s]
    decreases intervals[s].start, s
  {
    hide FitsFirst;
    forall t | Earlier(intervals, t, s) ensures a[t] == b[t] {
      SamePosition(intervals, a, b, t);
    }
    forall n: nat ensures TakenBefore(intervals, a, s, n) <==> TakenBefore(intervals, b, s, n) {
    }
    assert FitsFirst(intervals, a, s) && FitsFirst(intervals, b, s);
    SameChoice(intervals, a, b, s);
  }

  lemma SameChoice(intervals: map<Slot, Interval>, a: map<Slot, SlotLocation>, b: map<Slot, SlotLocation>, s: Slot)
    requires a.Keys == intervals.Keys && b.Keys == intervals.Keys && s in intervals
    requires FitsFirst(intervals, a, s) && FitsFirst(intervals, b, s)
    requires forall n: nat :: TakenBefore(intervals, a, s, n) <==> TakenBefore(intervals, b, s, n)
    ensures a[s] == b[s]
  {
    hide TakenBefore;
    if a[s].StackPos? && b[s].StackPos? {
      assert a[s].n >= b[s].n;
      assert b[s].n >= a[s].n;
    }
  }

  /** There is only one first-fit assignment: every slot's place is determined by the intervals. */
  lemma FirstFitIsUnique(intervals: map<Slot, Interval>, a: map<Slot, SlotLocation>, b: map<Slot, SlotLocation>)
    requires FirstFit(intervals, a) && FirstFit(intervals, b)
    ensures a == b
  {
    hide FitsFirst;
    forall s | s in intervals ensures a[s] == b[s] {
      SamePosition(intervals, a, b, s);
    }
  }

  /** Positions 1 to n are taken by n different slots, all coloured earlier, where the interval of `s` starts. */
  lemma {:induction false} TakenByDifferent(
      intervals: map<Slot, Interval>, assignment: map<Slot, SlotLocation>, s: Slot, n: nat)
    returns (slots: set<Slot>)
    requires s in intervals && assignment.Keys <= intervals.Keys
    requires forall m: nat :: 1 <= m <= n ==> TakenBefore(intervals, assignment, s, m)
    ensures |slots| == n && s !in slots && Meet(intervals, slots, intervals[s].start)
    ensures forall t :: t in slots ==> t in assignment && assignment[t].StackPos? && assignment[t].n <= n
  {
    if n == 0 {
      slots := {};
    } else {
      slots := TakenByDifferent(intervals, assignment, s, n - 1);
      assert TakenBefore(intervals, assignment, s, n);
      var t :| t in assignment && assignment[t] == StackPos(n) && Earlier(intervals, t, s)
        && intervals[t].Contains(intervals[s].start);
      slots := slots + {t};
    }
  }

  /**
   * A slot goes to memory only if its interval starts where those of fifteen other
   * slots, each in its own position, are open: sixteen with itself.
   */
  lemma MemoryNeedsSixteen(intervals: map<Slot, Interval>, assignment: map<Slot, SlotLocation>, s: Slot)
    returns (slots: set<Slot>)
    requires FirstFit(intervals, assignment) && s in assignment && assignment[s] == Memory
    ensures |slots| == MAX_STACK_REGS + 1 && s in slots && Meet(intervals, slots, intervals[s].start)
    ensures forall t :: t in slots && t != s ==> t in assignment && assignment[t].StackPos?
  {
    assert FitsFirst(intervals, assignment, s);
    var others := TakenByDifferent(intervals, assignment, s, MAX_STACK_REGS);
    slots := others + {s};
  }

  /** Below a slot's position every other one is taken where its interval starts. */
  lemma LowerPositionsTaken(intervals: map<Slot, Interval>, assignment: map<Slot, SlotLocation>, s: Slot, m: nat)
    returns (t: Slot)
    requires FirstFit(intervals, assignment) && s in assignment && assignment[s].StackPos? && 1 <= m < assignment[s].n
    ensures t != s && t in assignment && assignment[t] == StackPos(m)
    ensures intervals[t].Contains(intervals[s].start)
  {
    hide TakenBefore;
    assert FitsFirst(intervals, assignment, s);
    assert TakenBefore(intervals, assignment, s, m);
    t := Taker(intervals, assignment, s, m);
  }

  lemma Taker(intervals: map<Slot, Interval>, assignment: map<Slot, SlotLocation>, s: Slot, m: nat) returns (t: Slot)
    requires s in intervals && assignment.Keys <= intervals.Keys && TakenBefore(intervals, assignment, s, m)
    ensures t != s && t in assignment && assignment[t] == StackPos(m)
    ensures intervals[t].Contains(intervals[s].start)
  {
    t :| t in assignment && assignment[t] == StackPos(m) && Earlier(intervals, t, s)
      && intervals[t].Contains(intervals[s].start);
  }

  method ColorSlots(intervals: map<Slot, Interval>) returns (assignment: map<Slot, SlotLocation>)
    ensures Safe(intervals, assignment)
    ensures (exists s :: s in assignment && assignment[s] == Memory) <==> PressureAtLeast(intervals, MAX_STACK_REGS + 1)
    ensures forall s :: s in assignment && assignment[s].StackPos? ==> PressureAtLeast(intervals, assignment[s].n)
    ensures FirstFit(intervals, assignment)
  {
    hide Distinct, ToSet, PressureAtLeast, FirstFit, Greedy, Proper;
    var keys := map s: Slot | s in intervals :: (intervals[s].start, s);
    var order := SortByKey(intervals.Keys, keys);
    KeysSort(intervals, keys, order);
    var color: map<Slot, nat> := map[];
    NoneColoured(intervals, color, order);
    for k := 0 to |order|
      invariant color.Keys == ToSet(order[..k]) && color.Keys <= intervals.Keys
      invariant Proper(intervals, color) && Greedy(intervals, color)
    {
      var c := LowestFree(UsedColours(intervals, color, intervals[order[k]]));
      ColourStep(intervals, color, order, k, c);
      color := color[order[k] := c];
    }
    assert order[..|order|] == order;
    assignment := map s | s in color :: Location(color[s]);
    ColoursAssign(intervals, color, assignment);
  }

  lemma KeysSort(intervals: map<Slot, Interval>, keys: map<Slot, Key>, order: seq<Slot>)
    requires keys == map s: Slot | s in intervals :: (intervals[s].start, s)
    requires SortedBy(order, keys) && Distinct(order)
    ensures StartsSorted(intervals, order)
  {
    forall i, j | 0 <= i < j < |order| ensures Earlier(intervals, order[i], order[j]) {
      assert KeyLe(keys[order[i]], keys[order[j]]);
    }
  }

  lemma NoneColoured(intervals: map<Slot, Interval>, color: map<Slot, nat>, order: seq<Slot>)
    requires color == map[]
    ensures color.Keys == ToSet(order[..0]) && Proper(intervals, color) && Greedy(intervals, color)
  {
  }

  lemma ColoursAssign(intervals: map<Slot, Interval>, color: map<Slot, nat>, assignment: map<Slot, SlotLocation>)
    requires color.Keys == intervals.Keys && Proper(intervals, color) && Greedy(intervals, color)
    requires assignment == map s | s in color :: Location(color[s])
    ensures Safe(intervals, assignment)
    ensures (exists s :: s in assignment && assignment[s] == Memory) <==> PressureAtLeast(intervals, MAX_STACK_REGS + 1)
    ensures forall s :: s in assignment && assignment[s].StackPos? ==> PressureAtLeast(intervals, assignment[s].n)
    ensures FirstFit(intervals, assignment)
  {
    hide PressureAtLeast, Greedy, FitsFirst;
    SpillExact(intervals, color);
    assert forall s :: s in color ==> assignment[s] == Location(color[s]);
    forall s | s in assignment && assignment[s].StackPos? ensures PressureAtLeast(intervals, assignment[s].n) {
      ColourNeedsPressure(intervals, color, s);
    }
    forall s | s in assignment ensures FitsFirst(intervals, assignment, s) {
      ColourFits(intervals, color, assignment, s);
    }
  }

  /** A colour that is the lowest free one is a position that is the first free one. */
  lemma ColourFits(intervals: map<Slot, Interval>, color: map<Slot, nat>, assignment: map<Slot, SlotLocation>, s: Slot)
    requires color.Keys == intervals.Keys && Proper(intervals, color) && Greedy(intervals, color) && s in color
    requires assignment == map s | s in color :: Location(color[s])
    ensures FitsFirst(intervals, assignment, s)
  {
    forall m: nat | 1 <= m <= color[s] && m <= MAX_STACK_REGS ensures TakenBefore(intervals, assignment, s, m) {
      assert LowerColourMeets(intervals, color, s, m - 1);
      var t :| t in color && color[t] == m - 1 && Earlier(intervals, t, s)
        && intervals[t].Contains(intervals[s].start);
      assert assignment[t] == StackPos(m);
    }
    forall t | t in color && Earlier(intervals, t, s) && intervals[t].Contains(intervals[s].start)
      ensures color[t] != color[s]
    {
      assert intervals[t].Overlaps(intervals[s]);
    }
  }

  // ---------------------------------------------------------------------------
  // Layouts
  // ---------------------------------------------------------------------------

  predicate Positioned(assignment: map<Slot, SlotLocation>, s: Slot) {
    s in assignment && assignment[s].StackPos?
  }

  function Position(assignment: map<Slot, SlotLocation>, s: Slot): nat {
    if Positioned(assignment, s) then assignment[s].n else 0
  }

  ghost predicate PositionsRise(layout: seq<Slot>, assignment: map<Slot, SlotLocation>) {
    forall i, j :: 0 <= i < j < |layout| ==> Position(assignment, layout[i]) <= Position(assignment, layout[j])
  }

  method StackPositionedSlots(slots: set<Slot>, assignment: map<Slot, SlotLocation>) returns (layout: seq<Slot>)
    ensures Distinct(layout) && forall s :: s in layout <==> s in slots && Positioned(assignment, s)
    ensures PositionsRise(layout, assignment)
  {
    var positioned := set s | s in slots && Positioned(assignment, s);
    var keys := map s: Slot | s in positioned :: (assignment[s].n, 0);
    layout := SortByKey(positioned, keys);
    assert forall s :: s in layout <==> s in ToSet(layout);
    forall i, j | 0 <= i < j < |layout| ensures Position(assignment, layout[i]) <= Position(assignment, layout[j]) {
      assert KeyLe(keys[layout[i]], keys[layout[j]]);
    }
  }

  /** A block's layout: its live slots that have a stack position, topmost first. */
  ghost predicate LayoutOf(layout: seq<Slot>, live: set<Slot>, assignment: map<Slot, SlotLocation>) {
    && Distinct(layout) && (forall s :: s in layout <==> s in live && Positioned(assignment, s))
    && PositionsRise(layout, assignment)
  }

  method DeriveLayouts(cfg: Cfg, live: map<BlockId, set<Slot>>, assignment: map<Slot, SlotLocation>)
    returns (layouts: map<BlockId, seq<Slot>>)
    requires live.Keys == cfg.blocks.Keys
    ensures layouts.Keys == cfg.blocks.Keys
    ensures forall b :: b in layouts ==> LayoutOf(layouts[b], live[b], assignment)
  {
    hide LayoutOf, Distinct, ToSet;
    layouts := map[];
    NoElements<BlockId>([]);
    var ids := AnyOrder(cfg.blocks.Keys);
    for i := 0 to |ids|
      invariant layouts.Keys == ToSet(ids[..i])
      invariant forall b :: b in layouts ==> b in live && LayoutOf(layouts[b], live[b], assignment)
    {
      PrefixGrows(ids, i);
      var layout := StackPositionedSlots(live[ids[i]], assignment);
      IsLayout(layout, live[ids[i]], assignment);
      layouts := layouts[ids[i] := layout];
    }
    assert ids[..|ids|] == ids;
  }

  lemma IsLayout(layout: seq<Slot>, live: set<Slot>, assignment: map<Slot, SlotLocation>)
    requires Distinct(layout) && forall s :: s in layout <==> s in live && Positioned(assignment, s)
    requires PositionsRise(layout, assignment)
    ensures LayoutOf(layout, live, assignment)
  {
  }

  // ---------------------------------------------------------------------------
  // Allocation safety
  // ---------------------------------------------------------------------------

  /** Two slots live at one program point of a reachable block never share a stack position. */
  lemma LiveTogetherApart(
      cfg: Cfg, live: LiveInfo, ranges: map<BlockId, Range>, intervals: map<Slot, Interval>,
      assignment: map<Slot, SlotLocation>, b: BlockId, i: nat, s: Slot, t: Slot)
    requires Solution(cfg, live) && Numbering(cfg, ranges) && b in ranges
    requires Hull(intervals, AllPoints(cfg, live, ranges)) && Safe(intervals, assignment)
    requires i <= |cfg.blocks[b].instructions| && s != t
    requires s in LiveBefore(cfg.blocks[b].instructions[i..], cfg.blocks[b].terminator, live.liveOut[b])
    requires t in LiveBefore(cfg.blocks[b].instructions[i..], cfg.blocks[b].terminator, live.liveOut[b])
    ensures s in assignment && t in assignment && (assignment[s].StackPos? ==> assignment[s] != assignment[t])
  {
    hide LiveBefore, Solution, Hull, EquationsAt;
    LiveIsCovered(cfg, live, ranges, intervals, b, i, s);
    LiveIsCovered(cfg, live, ranges, intervals, b, i, t);
    assert PositionsDiffer(intervals, assignment, s, t);
  }

  /** The layout of a reachable block rises strictly in position, so it has at most 15 slots. */
  lemma LayoutStrict(
      cfg: Cfg, live: LiveInfo, ranges: map<BlockId, Range>, intervals: map<Slot, Interval>,
      assignment: map<Slot, SlotLocation>, layout: seq<Slot>, b: BlockId)
    requires Solution(cfg, live) && Numbering(cfg, ranges) && b in ranges
    requires Hull(intervals, AllPoints(cfg, live, ranges)) && Safe(intervals, assignment)
    requires LayoutOf(layout, live.liveIn[b], assignment)
    ensures forall i, j :: 0 <= i < j < |layout| ==> Position(assignment, layout[i]) < Position(assignment, layout[j])
    ensures |layout| <= MAX_STACK_REGS
  {
    hide EquationsAt, Hull, Safe, LiveBefore;
    var insts := cfg.blocks[b].instructions;
    LiveInIs(cfg, live, b);
    assert insts[0..] == insts;
    forall i, j | 0 <= i < j < |layout| ensures Position(assignment, layout[i]) < Position(assignment, layout[j]) {
      LiveTogetherApart(cfg, live, ranges, intervals, assignment, b, 0, layout[i], layout[j]);
    }
    forall s | s in layout ensures Positioned(assignment, s) && 1 <= Position(assignment, s) <= MAX_STACK_REGS {
      SafeRange(intervals, assignment, s);
    }
    StrictIsShort(layout, assignment, |layout|);
  }

  lemma SafeRange(intervals: map<Slot, Interval>, assignment: map<Slot, SlotLocation>, s: Slot)
    requires Safe(intervals, assignment) && Positioned(assignment, s)
    ensures 1 <= Position(assignment, s) <= MAX_STACK_REGS
  {
  }

  lemma {:induction false} StrictIsShort(layout: seq<Slot>, assignment: map<Slot, SlotLocation>, k: nat)
    requires forall s :: s in layout ==> Positioned(assignment, s) && 1 <= Position(assignment, s) <= MAX_STACK_REGS
    requires forall i, j :: 0 <= i < j < |layout| ==> Position(assignment, layout[i]) < Position(assignment, layout[j])
    requires k <= |layout|
    ensures k > 0 ==> Position(assignment, layout[k - 1]) >= k
    ensures k <= MAX_STACK_REGS
  {
    if k > 0 {
      StrictIsShort(layout, assignment, k - 1);
      assert layout[k - 1] in layout;
    }
  }

  /**
   * The allocation is the first-fit one for intervals that span exactly what is
   * touched, with blocks numbered breadth first, and each layout is what is live.
   */
  ghost predicate AllocatedFrom(
      cfg: Cfg, live: LiveInfo, alloc: Allocation, intervals: map<Slot, Interval>, ranges: map<BlockId, Range>,
      level: map<BlockId, nat>)
  {
    && ranges.Keys <= cfg.blocks.Keys && live.liveIn.Keys == cfg.blocks.Keys && live.liveOut.Keys == cfg.blocks.Keys
    && Numbering(cfg, ranges) && Gapless(ranges) && BreadthFirst(GraphOf(cfg), ranges, level)
    && Hull(intervals, AllPoints(cfg, live, ranges)) && FirstFit(intervals, alloc.assignment)
    && alloc.entryLayout.Keys == cfg.blocks.Keys
    && forall b :: b in cfg.blocks ==> LayoutOf(alloc.entryLayout[b], live.liveIn[b], alloc.assignment)
  }

  ghost predicate Allocated(cfg: Cfg, live: LiveInfo, alloc: Allocation) {
    exists intervals, ranges, level :: AllocatedFrom(cfg, live, alloc, intervals, ranges, level)
  }

  /** The allocation of a function, with everything the code generator needs of it. */
  method Allocate(cfg: Cfg, live: LiveInfo)
    returns (alloc: Allocation, ghost intervals: map<Slot, Interval>, ghost ranges: map<BlockId, Range>)
    requires WellFormed(cfg) && Solution(cfg, live)
    ensures Numbering(cfg, ranges) && forall b :: b in ranges <==> Reaches(GraphOf(cfg), cfg.entry, b)
    ensures Hull(intervals, AllPoints(cfg, live, ranges)) && Safe(intervals, alloc.assignment)
    ensures (exists s :: s in alloc.assignment && alloc.assignment[s] == Memory) <==>
            PressureAtLeast(intervals, MAX_STACK_REGS + 1)
    ensures FirstFit(intervals, alloc.assignment) && Allocated(cfg, live, alloc)
    ensures alloc.entryLayout.Keys == cfg.blocks.Keys
    ensures forall b :: b in cfg.blocks ==> LayoutOf(alloc.entryLayout[b], live.liveIn[b], alloc.assignment)
    ensures forall b :: b in cfg.blocks && Reaches(GraphOf(cfg), cfg.entry, b) ==>
              |alloc.entryLayout[b]| <= MAX_STACK_REGS
              && PointsApart(cfg, live, alloc.assignment, b)
  {
    hide Solution, Hull, Safe, LayoutOf, WellFormed, PressureAtLeast, PointsApart, FirstFit, Gapless,
        BreadthFirst, AllPoints;
    SolutionKeys(cfg, live);
    var spans;
    ghost var level;
    spans, ranges, level := ComputeIntervals(cfg, live);
    intervals := spans;
    var assignment := ColorSlots(spans);
    var entryLayout := DeriveLayouts(cfg, live.liveIn, assignment);
    alloc := Allocation(assignment, entryLayout);
    assert AllocatedFrom(cfg, live, alloc, spans, ranges, level);
    forall b | b in cfg.blocks && Reaches(GraphOf(cfg), cfg.entry, b)
      ensures |alloc.entryLayout[b]| <= MAX_STACK_REGS && PointsApart(cfg, live, alloc.assignment, b)
    {
      LayoutStrict(cfg, live, ranges, intervals, assignment, entryLayout[b], b);
      AllPointsApart(cfg, live, ranges, intervals, assignment, b);
    }
  }

  lemma SolutionKeys(cfg: Cfg, live: LiveInfo)
    requires Solution(cfg, live)
    ensures live.liveIn.Keys == cfg.blocks.Keys && live.liveOut.Keys == cfg.blocks.Keys
  {
  }

  /** The slot is live before instruction i of the block (or before its terminator). */
  ghost predicate LiveAtPoint(cfg: Cfg, live: LiveInfo, b: BlockId, i: nat, s: Slot)
    requires b in cfg.blocks && b in live.liveOut
  {
    i <= |cfg.blocks[b].instructions|
    && s in LiveBefore(cfg.blocks[b].instructions[i..], cfg.blocks[b].terminator, live.liveOut[b])
  }

  /** Slots live together at any point of the block sit at different stack positions. */
  ghost predicate PointsApart(cfg: Cfg, live: LiveInfo, assignment: map<Slot, SlotLocation>, b: BlockId)
    requires b in cfg.blocks && b in live.liveOut
  {
    forall i, s, t {:trigger LiveAtPoint(cfg, live, b, i, s), LiveAtPoint(cfg, live, b, i, t)} ::
      s != t && LiveAtPoint(cfg, live, b, i, s) && LiveAtPoint(cfg, live, b, i, t) ==>
        s in assignment && t in assignment && (assignment[s].StackPos? ==> assignment[s] != assignment[t])
  }

  lemma AllPointsApart(
      cfg: Cfg, live: LiveInfo, ranges: map<BlockId, Range>, intervals: map<Slot, Interval>,
      assignment: map<Slot, SlotLocation>, b: BlockId)
    requires Solution(cfg, live) && Numbering(cfg, ranges) && b in ranges
    requires Hull(intervals, AllPoints(cfg, live, ranges)) && Safe(intervals, assignment)
    ensures PointsApart(cfg, live, assignment, b)
  {
    hide LiveBefore, EquationsAt, Hull, Safe;
    forall i, s, t | s != t && LiveAtPoint(cfg, live, b, i, s) && LiveAtPoint(cfg, live, b, i, t)
      ensures s in assignment && t in assignment && (assignment[s].StackPos? ==> assignment[s] != assignment[t])
    {
      LiveTogetherApart(cfg, live, ranges, intervals, assignment, b, i, s, t);
    }
  }
}
