/**
 * Live intervals (codegen/src/analysis/liveness.rs): blocks are numbered breadth
 * first, and a slot's interval spans every index at which it is touched. The
 * interval covers every program point of a reachable block where the slot is live.
 */
module Intervals {
  import opened Sequences
  import opened Lowered
  import opened LiveSets
  import opened Graphs
  import opened Liveness

  datatype Range = Range(start: nat, end: nat)

  datatype Span = Span(start: nat, end: nat) {
    predicate Overlaps(other: Span) {
      start <= other.end && other.start <= end
    }

    predicate Contains(idx: nat) {
      start <= idx <= end
    }
  }

  type Interval = s: Span | s.start <= s.end witness Span(0, 0)

  // ---------------------------------------------------------------------------
  // Numbering the blocks
  // ---------------------------------------------------------------------------

  /** Block indices run from the first instruction to the terminator, and no index is shared. */
  ghost predicate Numbering(cfg: Cfg, ranges: map<BlockId, Range>) {
    && (forall b :: b in ranges ==> b in cfg.blocks && ranges[b].end == ranges[b].start + |cfg.blocks[b].instructions|)
    && (forall b, c :: b in ranges && c in ranges && b != c ==>
          ranges[b].end < ranges[c].start || ranges[c].end < ranges[b].start)
  }

  /** What the search has done: every numbered block's successors are seen, and the seen ones are reachable. */
  ghost predicate Searched(cfg: Cfg, done: set<BlockId>, queue: seq<BlockId>, seen: set<BlockId>) {
    && seen == done + ToSet(queue) && done !! ToSet(queue) && Distinct(queue)
    && cfg.entry in seen && seen <= cfg.blocks.Keys
    && (forall b :: b in seen ==> Reaches(GraphOf(cfg), cfg.entry, b))
    && (forall a, b {:trigger Edge(GraphOf(cfg), a, b)} :: a in done && Edge(GraphOf(cfg), a, b) ==> b in seen)
  }

  /** Queue the successors that are not seen yet. */
  method Discover(succs: seq<BlockId>, queue: seq<BlockId>, seen: set<BlockId>)
    returns (queue': seq<BlockId>, seen': set<BlockId>)
    requires ToSet(queue) <= seen && Distinct(queue)
    ensures seen' == seen + ToSet(succs)
    ensures ToSet(queue') == ToSet(queue) + (ToSet(succs) - seen) && Distinct(queue') && queue <= queue'
  {
    queue', seen' := queue, seen;
    for j := 0 to |succs|
      invariant seen' == seen + ToSet(succs[..j])
      invariant ToSet(queue') == ToSet(queue) + (ToSet(succs[..j]) - seen) && Distinct(queue') && queue <= queue'
    {
      assert succs[..j + 1] == succs[..j] + [succs[j]];
      if succs[j] !in seen' {
        assert succs[j] !in ToSet(queue');
        queue', seen' := queue' + [succs[j]], seen' + {succs[j]};
      }
    }
    assert succs[..|succs|] == succs;
  }

  /** No index below the end of a range is left out. */
  ghost predicate Gapless(ranges: map<BlockId, Range>) {
    forall b, idx :: b in ranges && 0 <= idx <= ranges[b].end ==> Covered(ranges, idx)
  }

  ghost predicate Covered(ranges: map<BlockId, Range>, idx: nat) {
    exists b :: b in ranges && ranges[b].start <= idx <= ranges[b].end
  }

  /** `d` edges lead from the entry to b, and no path is shorter. */
  ghost predicate IsDistance(g: Graph, b: BlockId, d: nat) {
    && (exists p :: PathBetween(g, p, g.entry, b) && |p| == d + 1)
    && forall p :: PathBetween(g, p, g.entry, b) ==> |p| > d
  }

  /** Blocks are numbered by their distance from the entry. */
  ghost predicate BreadthFirst(g: Graph, ranges: map<BlockId, Range>, level: map<BlockId, nat>) {
    && level.Keys == ranges.Keys && (forall b :: b in level ==> IsDistance(g, b, level[b]))
    && forall a, b :: a in level && b in level && level[a] < level[b] ==> ranges[a].end < ranges[b].start
  }

  method BfsBlockRanges(cfg: Cfg) returns (ranges: map<BlockId, Range>, ghost level: map<BlockId, nat>)
    requires WellFormed(cfg)
    ensures Numbering(cfg, ranges) && Gapless(ranges)
    ensures BreadthFirst(GraphOf(cfg), ranges, level)
    ensures forall b :: b in ranges <==> Reaches(GraphOf(cfg), cfg.entry, b)
  {
    hide WellFormed, Searched, Levelled, Filled, BreadthFirst, Numbering, Gapless, Distinct, NextLevels, ToSet;
    ranges := map[];
    level := map[cfg.entry := 0];
    LevelsStart(cfg);
    NoRanges(cfg);
    var current: nat := 0;
    var queue, seen := [cfg.entry], {cfg.entry};
    SearchStarts(cfg);
    assert ranges.Keys == {};
    while queue != []
      invariant Searched(cfg, ranges.Keys, queue, seen)
      invariant Numbering(cfg, ranges) && forall b :: b in ranges ==> ranges[b].end < current
      invariant Filled(ranges, current) && Levelled(GraphOf(cfg), ranges, queue, seen, level)
      decreases cfg.blocks.Keys - ranges.Keys
    {
      var b := queue[0];
      ghost var before, done, seenBefore, rangesBefore := queue, ranges.Keys, seen, ranges;
      SearchPops(cfg, done, queue, seen);
      var start := current;
      current := current + |cfg.blocks[b].instructions| + 1;
      ranges := ranges[b := Range(start, current - 1)];
      queue, seen := Discover(cfg.blocks[b].successors, queue[1..], seen);
      SearchAdvances(cfg, done, before, seenBefore, queue, seen);
      FilledNext(rangesBefore, start, |cfg.blocks[b].instructions|, b);
      NumberingNext(cfg, rangesBefore, b, start);
      LevelsAdvance(cfg, rangesBefore, before, seenBefore, level, queue, seen, start);
      level := NextLevels(level, seenBefore, seen, b);
      assert ranges.Keys == done + {b};
    }
    SearchEnds(cfg, ranges.Keys, seen);
    LevelsEnd(cfg, ranges, seen, level);
    FilledEnds(ranges, current);
  }

  lemma NumberingNext(cfg: Cfg, ranges: map<BlockId, Range>, b: BlockId, start: nat)
    requires Numbering(cfg, ranges) && b in cfg.blocks && b !in ranges
    requires forall c :: c in ranges ==> ranges[c].end < start
    ensures Numbering(cfg, ranges[b := Range(start, start + |cfg.blocks[b].instructions|)])
  {
  }

  lemma NoRanges(cfg: Cfg)
    ensures Numbering(cfg, map[])
  {
  }

  ghost predicate Filled(ranges: map<BlockId, Range>, current: nat) {
    forall idx :: 0 <= idx < current ==> Covered(ranges, idx)
  }

  lemma FilledNext(ranges: map<BlockId, Range>, start: nat, n: nat, b: BlockId)
    requires Filled(ranges, start) && b !in ranges
    ensures Filled(ranges[b := Range(start, start + n)], start + n + 1)
  {
    var ranges' := ranges[b := Range(start, start + n)];
    forall idx | 0 <= idx < start + n + 1 ensures Covered(ranges', idx) {
      if idx < start {
        assert Covered(ranges, idx);
        var c :| c in ranges && ranges[c].start <= idx <= ranges[c].end;
        assert c in ranges' && ranges'[c] == ranges[c];
      } else {
        assert b in ranges' && ranges'[b].start <= idx <= ranges'[b].end;
      }
    }
  }

  lemma FilledEnds(ranges: map<BlockId, Range>, current: nat)
    requires Filled(ranges, current) && forall b :: b in ranges ==> ranges[b].end < current
    ensures Gapless(ranges)
  {
    hide Covered;
  }

  ghost predicate PathOfLength(g: Graph, b: BlockId, d: nat) {
    exists p :: PathBetween(g, p, g.entry, b) && |p| == d + 1
  }

  ghost predicate AllPaths(g: Graph, level: map<BlockId, nat>) {
    forall b :: b in level ==> PathOfLength(g, b, level[b])
  }

  /** The queue holds one level and then the next. */
  ghost predicate QueueRises(queue: seq<BlockId>, level: map<BlockId, nat>) {
    && (forall i :: 0 <= i < |queue| ==> queue[i] in level)
    && forall i, j :: 0 <= i <= j < |queue| ==> level[queue[i]] <= level[queue[j]] <= level[queue[i]] + 1
  }

  /** The numbered blocks are not above the queued ones. */
  ghost predicate DoneBelow(ranges: map<BlockId, Range>, queue: seq<BlockId>, level: map<BlockId, nat>)
    requires ranges.Keys <= level.Keys && forall i :: 0 <= i < |queue| ==> queue[i] in level
  {
    forall b, i :: b in ranges && 0 <= i < |queue| ==> level[b] <= level[queue[i]]
  }

  /** Along an edge the level rises by at most one. */
  ghost predicate EdgesRise(g: Graph, ranges: map<BlockId, Range>, level: map<BlockId, nat>)
    requires ranges.Keys <= level.Keys
  {
    forall a, b {:trigger Edge(g, a, b)} :: a in ranges && Edge(g, a, b) ==> b in level && level[b] <= level[a] + 1
  }

  ghost predicate RangesRise(ranges: map<BlockId, Range>, level: map<BlockId, nat>)
    requires ranges.Keys <= level.Keys
  {
    forall a, b :: a in ranges && b in ranges && level[a] < level[b] ==> ranges[a].end < ranges[b].start
  }

  /** The search goes level by level. */
  ghost predicate Levelled(
      g: Graph, ranges: map<BlockId, Range>, queue: seq<BlockId>, seen: set<BlockId>, level: map<BlockId, nat>)
  {
    && level.Keys == seen && seen == ranges.Keys + ToSet(queue) && g.entry in seen && level[g.entry] == 0
    && AllPaths(g, level) && QueueRises(queue, level) && DoneBelow(ranges, queue, level)
    && EdgesRise(g, ranges, level) && RangesRise(ranges, level)
  }

  ghost function NextLevels(
      level: map<BlockId, nat>, seen: set<BlockId>, seen': set<BlockId>, b: BlockId): map<BlockId, nat>
    requires level.Keys == seen && b in seen
  {
    map x | x in seen' :: if x in seen then level[x] else level[b] + 1
  }

  lemma LevelsStart(cfg: Cfg)
    requires WellFormed(cfg)
    ensures Levelled(GraphOf(cfg), map[], [cfg.entry], {cfg.entry}, map[cfg.entry := 0]) && Filled(map[], 0)
  {
    var g := GraphOf(cfg);
    assert PathBetween(g, [cfg.entry], g.entry, cfg.entry);
    assert PathOfLength(g, cfg.entry, 0);
  }

  lemma PathGrows(g: Graph, a: BlockId, b: BlockId, d: nat)
    requires WellLinked(g) && PathOfLength(g, a, d) && Edge(g, a, b)
    ensures PathOfLength(g, b, d + 1)
  {
    var p :| PathBetween(g, p, g.entry, a) && |p| == d + 1;
    assert PathBetween(g, p + [b], g.entry, b) && |p + [b]| == d + 2;
  }

  lemma LevelsKnown(
      g: Graph, ranges: map<BlockId, Range>, queue: seq<BlockId>, seen: set<BlockId>, level: map<BlockId, nat>)
    requires Levelled(g, ranges, queue, seen, level) && queue != []
    ensures level.Keys == seen && queue[0] in seen && g.entry in seen && level[g.entry] == 0
    ensures seen == ranges.Keys + ToSet(queue) && forall i :: 0 <= i < |queue| ==> queue[i] in level
    ensures AllPaths(g, level) && QueueRises(queue, level) && DoneBelow(ranges, queue, level)
    ensures EdgesRise(g, ranges, level) && RangesRise(ranges, level)
  {
    hide AllPaths, DoneBelow, EdgesRise, RangesRise;
    assert queue[0] in ToSet(queue);
  }

  lemma LevelsAdvance(
      cfg: Cfg, ranges: map<BlockId, Range>, queue: seq<BlockId>, seen: set<BlockId>, level: map<BlockId, nat>,
      queue': seq<BlockId>, seen': set<BlockId>, start: nat)
    requires WellFormed(cfg) && Levelled(GraphOf(cfg), ranges, queue, seen, level) && queue != []
    requires queue[0] in cfg.blocks && queue[0] !in ranges
    requires forall b :: b in ranges ==> ranges[b].end < start
    requires seen' == seen + ToSet(cfg.blocks[queue[0]].successors) && queue[1..] <= queue' && Distinct(queue')
    requires ToSet(queue') == ToSet(queue[1..]) + (ToSet(cfg.blocks[queue[0]].successors) - seen)
    ensures level.Keys == seen && queue[0] in seen
    ensures var b := queue[0];
            Levelled(GraphOf(cfg), ranges[b := Range(start, start + |cfg.blocks[b].instructions|)], queue', seen',
                NextLevels(level, seen, seen', b))
  {
    hide WellFormed, AllPaths, QueueRises, DoneBelow, EdgesRise, RangesRise, Distinct, NextLevels, ToSet, GraphOf,
        Levelled;
    LevelsKnown(GraphOf(cfg), ranges, queue, seen, level);
    var b := queue[0];
    NextKept(level, seen, cfg.blocks[b].successors, b);
    var range := Range(start, start + |cfg.blocks[b].instructions|);
    var succs := cfg.blocks[b].successors;
    var next := NextLevels(level, seen, seen', b);
    SeenNext(ranges.Keys, queue, seen, succs, queue', seen');
    assert ranges[b := range].Keys == ranges.Keys + {b};
    PathsAdvance(cfg, b, seen, level, seen');
    QueueLevels(queue, seen, level, succs, queue', next);
    DoneAdvance(ranges, queue, seen, level, succs, queue', next, range);
    SeenLevels(ranges, queue, seen, level);
    EdgesAdvance(cfg, ranges, b, seen, level, seen', range);
    RangesAdvance(ranges, queue, seen, level, next, range);
    LevelsClose(GraphOf(cfg), ranges[b := range], queue', seen', next);
  }

  lemma NextKept(level: map<BlockId, nat>, seen: set<BlockId>, succs: seq<BlockId>, b: BlockId)
    requires level.Keys == seen && b in seen
    ensures var next := NextLevels(level, seen, seen + ToSet(succs), b);
            next.Keys == seen + ToSet(succs) && forall x :: x in seen ==> x in next && next[x] == level[x]
  {
  }

  lemma LevelsClose(
      g: Graph, ranges: map<BlockId, Range>, queue: seq<BlockId>, seen: set<BlockId>, level: map<BlockId, nat>)
    requires level.Keys == seen && seen == ranges.Keys + ToSet(queue) && g.entry in seen && level[g.entry] == 0
    requires AllPaths(g, level) && QueueRises(queue, level)
    requires (forall i :: 0 <= i < |queue| ==> queue[i] in level) && DoneBelow(ranges, queue, level)
    requires EdgesRise(g, ranges, level) && RangesRise(ranges, level)
    ensures Levelled(g, ranges, queue, seen, level)
  {
    hide AllPaths, QueueRises, DoneBelow, EdgesRise, RangesRise;
  }

  lemma SeenNext(
      done: set<BlockId>, queue: seq<BlockId>, seen: set<BlockId>, succs: seq<BlockId>, queue': seq<BlockId>,
      seen': set<BlockId>)
    requires queue != [] && seen == done + ToSet(queue) && seen' == seen + ToSet(succs)
    requires ToSet(queue') == ToSet(queue[1..]) + (ToSet(succs) - seen)
    ensures seen' == done + {queue[0]} + ToSet(queue')
  {
    assert queue == [queue[0]] + queue[1..];
  }

  lemma PathsAdvance(cfg: Cfg, b: BlockId, seen: set<BlockId>, level: map<BlockId, nat>, seen': set<BlockId>)
    requires WellFormed(cfg) && AllPaths(GraphOf(cfg), level) && b in cfg.blocks && b in seen && level.Keys == seen
    requires seen' == seen + ToSet(cfg.blocks[b].successors)
    ensures AllPaths(GraphOf(cfg), NextLevels(level, seen, seen', b))
  {
    var g, next := GraphOf(cfg), NextLevels(level, seen, seen', b);
    GraphLinked(cfg);
    hide WellFormed, PathOfLength, WellLinked;
    forall x | x in seen' ensures PathOfLength(g, x, next[x]) {
      if x !in seen {
        assert Edge(g, b, x);
        PathGrows(g, b, x, level[b]);
      }
    }
  }

  lemma SeenLevels(ranges: map<BlockId, Range>, queue: seq<BlockId>, seen: set<BlockId>, level: map<BlockId, nat>)
    requires queue != [] && seen == ranges.Keys + ToSet(queue) && level.Keys == seen
    requires QueueRises(queue, level) && DoneBelow(ranges, queue, level)
    ensures forall y :: y in seen ==> level[y] <= level[queue[0]] + 1
  {
    forall y | y in seen ensures level[y] <= level[queue[0]] + 1 {
      if y in ToSet(queue) {
        var i :| 0 <= i < |queue| && queue[i] == y;
      }
    }
  }

  lemma EdgesAdvance(
      cfg: Cfg, ranges: map<BlockId, Range>, b: BlockId, seen: set<BlockId>, level: map<BlockId, nat>,
      seen': set<BlockId>, range: Range)
    requires b in cfg.blocks && b in seen && level.Keys == seen && ranges.Keys <= seen
    requires seen' == seen + ToSet(cfg.blocks[b].successors) && EdgesRise(GraphOf(cfg), ranges, level)
    requires forall y :: y in seen ==> level[y] <= level[b] + 1
    ensures EdgesRise(GraphOf(cfg), ranges[b := range], NextLevels(level, seen, seen', b))
  {
    var g, next := GraphOf(cfg), NextLevels(level, seen, seen', b);
    forall x, y {:trigger Edge(g, x, y)} | x in ranges[b := range] && Edge(g, x, y)
      ensures y in next && next[y] <= next[x] + 1
    {
      if x == b {
        assert y in cfg.blocks[b].successors;
      }
    }
  }

  lemma RangesAdvance(
      ranges: map<BlockId, Range>, queue: seq<BlockId>, seen: set<BlockId>, level: map<BlockId, nat>,
      next: map<BlockId, nat>, range: Range)
    requires queue != [] && level.Keys == seen && ranges.Keys + ToSet(queue) == seen && queue[0] !in ranges
    requires (forall i :: 0 <= i < |queue| ==> queue[i] in level) && DoneBelow(ranges, queue, level)
    requires forall x :: x in seen ==> x in next && next[x] == level[x]
    requires RangesRise(ranges, level) && forall b :: b in ranges ==> ranges[b].end < range.start
    ensures ranges[queue[0] := range].Keys <= next.Keys && RangesRise(ranges[queue[0] := range], next)
  {
    var b := queue[0];
    forall y | y in ranges ensures level[y] <= level[b] {
      assert level[y] <= level[queue[0]];
    }
  }

  lemma DoneAdvance(
      ranges: map<BlockId, Range>, queue: seq<BlockId>, seen: set<BlockId>, level: map<BlockId, nat>,
      succs: seq<BlockId>, queue': seq<BlockId>, next: map<BlockId, nat>, range: Range)
    requires queue != [] && level.Keys == seen && ranges.Keys + ToSet(queue) == seen
    requires (forall i :: 0 <= i < |queue| ==> queue[i] in level) && DoneBelow(ranges, queue, level)
    requires next == NextLevels(level, seen, seen + ToSet(succs), queue[0])
    requires forall i :: 0 <= i < |queue'| ==> queue'[i] in next && level[queue[0]] <= next[queue'[i]]
    ensures ranges[queue[0] := range].Keys <= next.Keys && DoneBelow(ranges[queue[0] := range], queue', next)
  {
    forall y | y in ranges ensures level[y] <= level[queue[0]] {
    }
  }

  lemma QueueLevels(
      queue: seq<BlockId>, seen: set<BlockId>, level: map<BlockId, nat>, succs: seq<BlockId>, queue': seq<BlockId>,
      next: map<BlockId, nat>)
    requires queue != [] && ToSet(queue) <= seen && level.Keys == seen && QueueRises(queue, level)
    requires next == NextLevels(level, seen, seen + ToSet(succs), queue[0])
    requires queue[1..] <= queue' && Distinct(queue')
    requires ToSet(queue') == ToSet(queue[1..]) + (ToSet(succs) - seen)
    ensures QueueRises(queue', next) && forall i :: 0 <= i < |queue'| ==> queue'[i] in next
    ensures forall i :: 0 <= i < |queue'| ==> level[queue[0]] <= next[queue'[i]]
  {
    var n := |queue| - 1;
    forall i | 0 <= i < |queue'|
      ensures queue'[i] in next
      ensures if i < n then queue'[i] == queue[i + 1] && next[queue'[i]] == level[queue[i + 1]]
              else next[queue'[i]] == level[queue[0]] + 1
    {
      assert queue'[i] in ToSet(queue');
      if i < n {
        assert queue'[i] == queue[1..][i] == queue[i + 1];
        assert queue[i + 1] in ToSet(queue);
      } else {
        BehindIsNew(queue[1..], queue', i);
      }
    }
  }

  lemma BehindIsNew(front: seq<BlockId>, all: seq<BlockId>, i: nat)
    requires front <= all && Distinct(all) && |front| <= i < |all|
    ensures all[i] !in ToSet(front)
  {
    forall j | 0 <= j < |front| ensures front[j] != all[i] {
      assert front[j] == all[j];
    }
  }

  /** Along any path levels rise by at most one a step, so no path is shorter than its end's level. */
  lemma {:induction false} PathNotShorter(
      g: Graph, ranges: map<BlockId, Range>, seen: set<BlockId>, level: map<BlockId, nat>, p: seq<BlockId>)
    requires Levelled(g, ranges, [], seen, level) && IsPath(g, p) && p[0] == g.entry
    ensures p[|p| - 1] in level && level[p[|p| - 1]] < |p|
    decreases |p|
  {
    var n := |p| - 1;
    if n > 0 {
      assert Edge(g, p[n - 1], p[n - 1 + 1]);
      PathNotShorter(g, ranges, seen, level, p[..n]);
    }
  }

  lemma LevelsEnd(cfg: Cfg, ranges: map<BlockId, Range>, seen: set<BlockId>, level: map<BlockId, nat>)
    requires Levelled(GraphOf(cfg), ranges, [], seen, level)
    ensures BreadthFirst(GraphOf(cfg), ranges, level)
  {
    var g := GraphOf(cfg);
    forall b | b in level ensures IsDistance(g, b, level[b]) {
      assert PathOfLength(g, b, level[b]);
      forall p | PathBetween(g, p, g.entry, b) ensures |p| > level[b] {
        PathNotShorter(g, ranges, seen, level, p);
      }
    }
  }

  lemma SearchStarts(cfg: Cfg)
    requires WellFormed(cfg)
    ensures Searched(cfg, {}, [cfg.entry], {cfg.entry})
  {
    ReachesItself(GraphOf(cfg), cfg.entry);
  }

  lemma SearchPops(cfg: Cfg, done: set<BlockId>, queue: seq<BlockId>, seen: set<BlockId>)
    requires Searched(cfg, done, queue, seen) && queue != []
    ensures queue[0] in cfg.blocks && queue[0] !in done
    ensures ToSet(queue[1..]) <= seen && Distinct(queue[1..])
  {
    hide Reaches;
    PopFront(queue);
  }

  lemma SearchAdvances(
      cfg: Cfg, done: set<BlockId>, queue: seq<BlockId>, seen: set<BlockId>, queue': seq<BlockId>, seen': set<BlockId>)
    requires WellFormed(cfg) && Searched(cfg, done, queue, seen) && queue != [] && queue[0] in cfg.blocks
    requires seen' == seen + ToSet(cfg.blocks[queue[0]].successors)
    requires ToSet(queue') == ToSet(queue[1..]) + (ToSet(cfg.blocks[queue[0]].successors) - seen) && Distinct(queue')
    ensures Searched(cfg, done + {queue[0]}, queue', seen')
  {
    var b, g := queue[0], GraphOf(cfg);
    PopFront(queue);
    GraphLinked(cfg);
    EdgesInside(cfg, b);
    hide Reaches, WellFormed, WellLinked, Distinct;
    forall s | s in cfg.blocks[b].successors ensures Reaches(g, cfg.entry, s) {
      assert Edge(g, b, s);
      ReachesFurther(g, cfg.entry, b, s);
    }
  }

  lemma SearchEnds(cfg: Cfg, done: set<BlockId>, seen: set<BlockId>)
    requires WellFormed(cfg) && Searched(cfg, done, [], seen)
    ensures forall b :: b in done <==> Reaches(GraphOf(cfg), cfg.entry, b)
  {
    hide Reaches;
    ClosedContainsReached(GraphOf(cfg), done, cfg.entry);
  }

  // ---------------------------------------------------------------------------
  // Where slots are touched
  // ---------------------------------------------------------------------------

  type Points = set<(Slot, nat)>

  function At(slots: set<Slot>, idx: nat): Points {
    set s | s in slots :: (s, idx)
  }

  /** Reads and writes of some instructions, the first of which has index `idx`. */
  function InstructionPoints(insts: seq<Instruction>, idx: nat): Points
    decreases |insts|
  {
    if insts == [] then {}
    else At(Uses(insts[0]) + Defs(insts[0]), idx) + InstructionPoints(insts[1..], idx + 1)
  }

  function BlockPoints(b: Block, liveIn: set<Slot>, liveOut: set<Slot>, range: Range): Points {
    At(liveIn, range.start) + At(liveOut + TerminatorUses(b.terminator), range.end)
        + InstructionPoints(b.instructions, range.start)
  }

  ghost function AllPoints(cfg: Cfg, live: LiveInfo, ranges: map<BlockId, Range>): Points
    requires ranges.Keys <= cfg.blocks.Keys && live.liveIn.Keys == cfg.blocks.Keys
        && live.liveOut.Keys == cfg.blocks.Keys
  {
    set b, p | b in ranges && p in PointsOf(cfg, live, ranges, b) :: p
  }

  /** Each interval runs from the first to the last index its slot is touched at. */
  ghost predicate Hull(intervals: map<Slot, Interval>, points: Points) {
    && (forall s, i :: (s, i) in points ==> s in intervals && intervals[s].Contains(i))
    && (forall s :: s in intervals ==> (s, intervals[s].start) in points && (s, intervals[s].end) in points)
  }

  method ExtendInterval(intervals: map<Slot, Interval>, slot: Slot, idx: nat, ghost points: Points)
    returns (r: map<Slot, Interval>)
    requires Hull(intervals, points)
    ensures Hull(r, points + At({slot}, idx))
  {
    if slot in intervals {
      var iv: Interval := intervals[slot];
      if idx < iv.start {
        iv := iv.(start := idx);
      }
      if idx > iv.end {
        iv := iv.(end := idx);
      }
      r := intervals[slot := iv];
    } else {
      r := intervals[slot := Span(idx, idx)];
    }
  }

  method ExtendSlots(intervals: map<Slot, Interval>, slots: set<Slot>, idx: nat, ghost points: Points)
    returns (r: map<Slot, Interval>)
    requires Hull(intervals, points)
    ensures Hull(r, points + At(slots, idx))
  {
    hide Hull;
    r := intervals;
    var order := AnyOrder(slots);
    NoneAt(points, idx);
    for i := 0 to |order|
      invariant Hull(r, points + At(ToSet(order[..i]), idx))
    {
      OneMoreAt(points, order, i, idx);
      r := ExtendInterval(r, order[i], idx, points + At(ToSet(order[..i]), idx));
    }
    assert order[..|order|] == order;
  }

  lemma NoneAt(points: Points, idx: nat)
    ensures points + At(ToSet([]), idx) == points
  {
  }

  lemma OneMoreAt(points: Points, order: seq<Slot>, i: nat, idx: nat)
    requires i < |order|
    ensures points + At(ToSet(order[..i]), idx) + At({order[i]}, idx) == points + At(ToSet(order[..i + 1]), idx)
  {
    assert order[..i + 1] == order[..i] + [order[i]];
    assert ToSet(order[..i + 1]) == ToSet(order[..i]) + {order[i]};
  }

  method ExtendOperands(intervals: map<Slot, Interval>, operands: seq<Operand>, idx: nat, ghost points: Points)
    returns (r: map<Slot, Interval>)
    requires Hull(intervals, points)
    ensures Hull(r, points + At(SlotsOf(operands), idx))
  {
    r := intervals;
    for j := 0 to |operands|
      invariant Hull(r, points + At(SlotsOf(operands[..j]), idx))
    {
      SlotsOfNext(operands, j);
      ghost var before := points + At(SlotsOf(operands[..j]), idx);
      if operands[j].Location? {
        r := ExtendInterval(r, operands[j].slot, idx, before);
        assert before + At({operands[j].slot}, idx) == points + At(SlotsOf(operands[..j + 1]), idx);
      }
    }
    assert operands[..|operands|] == operands;
  }

  lemma SlotsOfNext(operands: seq<Operand>, j: nat)
    requires j < |operands|
    ensures SlotsOf(operands[..j + 1]) ==
            SlotsOf(operands[..j]) + (if operands[j].Location? then {operands[j].slot} else {})
  {
    assert operands[..j + 1] == operands[..j] + [operands[j]];
  }

  method ExtendBlock(
      intervals: map<Slot, Interval>, b: Block, liveIn: set<Slot>, liveOut: set<Slot>, range: Range,
      ghost points: Points)
    returns (r: map<Slot, Interval>)
    requires Hull(intervals, points) && range.end == range.start + |b.instructions|
    ensures Hull(r, points + BlockPoints(b, liveIn, liveOut, range))
  {
    hide Hull, InstructionPoints, Uses, Defs, TerminatorUses;
    r := ExtendSlots(intervals, liveIn, range.start, points);
    ghost var reached := points + At(liveIn, range.start);
    r := ExtendSlots(r, liveOut, range.end, reached);
    reached := reached + At(liveOut, range.end);
    r := ExtendInstructions(r, b.instructions, range.start, reached);
    reached := reached + InstructionPoints(b.instructions, range.start);
    r := ExtendOperands(r, TerminatorOperands(b.terminator), range.end, reached);
    TerminatorUsesIs(b.terminator);
    assert reached + At(TerminatorUses(b.terminator), range.end) == points + BlockPoints(b, liveIn, liveOut, range);
  }

  lemma TerminatorUsesIs(t: Terminator)
    ensures TerminatorUses(t) == SlotsOf(TerminatorOperands(t))
  {
  }

  method ExtendInstruction(intervals: map<Slot, Interval>, inst: Instruction, idx: nat, ghost points: Points)
    returns (r: map<Slot, Interval>)
    requires Hull(intervals, points)
    ensures Hull(r, points + At(Uses(inst) + Defs(inst), idx))
  {
    hide Hull, Uses, Defs, SlotsOf, Operands, Destination;
    UsesAndDefs(inst);
    r := ExtendOperands(intervals, Operands(inst), idx, points);
    match Destination(inst) {
      case Some(d) => r := ExtendInterval(r, d, idx, points + At(Uses(inst), idx));
      case None =>
    }
    assert points + At(Uses(inst), idx) + At(Defs(inst), idx) == points + At(Uses(inst) + Defs(inst), idx);
  }

  method ExtendInstructions(intervals: map<Slot, Interval>, insts: seq<Instruction>, start: nat, ghost points: Points)
    returns (r: map<Slot, Interval>)
    requires Hull(intervals, points)
    ensures Hull(r, points + InstructionPoints(insts, start))
  {
    hide Hull, Uses, Defs, At, InstructionPoints;
    r := intervals;
    ghost var reached := points;
    assert insts[0..] == insts;
    var i := 0;
    while i < |insts|
      invariant i <= |insts|
      invariant Hull(r, reached)
      invariant reached + InstructionPoints(insts[i..], start + i) == points + InstructionPoints(insts, start)
    {
      PointsStep(insts, i, start + i);
      r := ExtendInstruction(r, insts[i], start + i, reached);
      reached := reached + At(Uses(insts[i]) + Defs(insts[i]), start + i);
      i := i + 1;
    }
    PointsEnd(insts, start + i);
    assert reached == points + InstructionPoints(insts, start);
  }

  lemma PointsStep(insts: seq<Instruction>, i: nat, idx: nat)
    requires i < |insts|
    ensures InstructionPoints(insts[i..], idx) ==
            At(Uses(insts[i]) + Defs(insts[i]), idx) + InstructionPoints(insts[i + 1..], idx + 1)
  {
    hide Uses, Defs, At;
    assert insts[i..][0] == insts[i] && insts[i..][1..] == insts[i + 1..];
  }

  lemma PointsEnd(insts: seq<Instruction>, idx: nat)
    ensures InstructionPoints(insts[|insts|..], idx) == {}
  {
  }

  lemma UsesAndDefs(inst: Instruction)
    ensures Uses(inst) == SlotsOf(Operands(inst))
    ensures Destination(inst).Some? ==> Defs(inst) == {Destination(inst).value}
    ensures Destination(inst).None? ==>
        Defs(inst) == {} && forall points: Points, idx: nat :: points + At(Defs(inst), idx) == points
  {
  }

  method ComputeIntervals(cfg: Cfg, live: LiveInfo)
    returns (intervals: map<Slot, Interval>, ghost ranges: map<BlockId, Range>, ghost level: map<BlockId, nat>)
    requires WellFormed(cfg) && live.liveIn.Keys == cfg.blocks.Keys && live.liveOut.Keys == cfg.blocks.Keys
    ensures Numbering(cfg, ranges) && Gapless(ranges) && BreadthFirst(GraphOf(cfg), ranges, level)
    ensures forall b :: b in ranges <==> Reaches(GraphOf(cfg), cfg.entry, b)
    ensures Hull(intervals, AllPoints(cfg, live, ranges))
  {
    hide WellFormed, Reaches, Hull, BlockPoints, BreadthFirst, Gapless;
    var numbers, distances := BfsBlockRanges(cfg);
    ranges, level := numbers, distances;
    intervals := map[];
    NoPoints();
    ghost var reached: Points := {};
    var order := AnyOrder(numbers.Keys);
    for i := 0 to |order|
      invariant Hull(intervals, reached)
      invariant reached == set b, p | b in numbers && b in ToSet(order[..i])
          && p in PointsOf(cfg, live, numbers, b) :: p
    {
      var b := order[i];
      assert b in ToSet(order);
      assert ToSet(order[..i + 1]) == ToSet(order[..i]) + {b} by {
        assert order[..i + 1] == order[..i] + [b];
      }
      intervals := ExtendBlock(intervals, cfg.blocks[b], live.liveIn[b], live.liveOut[b], numbers[b], reached);
      reached := reached + PointsOf(cfg, live, numbers, b);
    }
    assert order[..|order|] == order;
    assert reached == AllPoints(cfg, live, ranges);
  }

  ghost function PointsOf(cfg: Cfg, live: LiveInfo, ranges: map<BlockId, Range>, b: BlockId): Points
    requires b in ranges && b in cfg.blocks && b in live.liveIn && b in live.liveOut
  {
    BlockPoints(cfg.blocks[b], live.liveIn[b], live.liveOut[b], ranges[b])
  }

  lemma NoPoints()
    ensures Hull(map[], {})
  {
  }

  // ---------------------------------------------------------------------------
  // Intervals cover liveness
  // ---------------------------------------------------------------------------

  /** A live slot is touched later on in its block, or at its end. */
  lemma {:induction false} TouchedLater(insts: seq<Instruction>, t: Terminator, out: set<Slot>, idx: nat, s: Slot)
    returns (j: nat)
    requires s in LiveBefore(insts, t, out)
    ensures idx <= j
    ensures (s, j) in InstructionPoints(insts, idx) || (j == idx + |insts| && s in out + TerminatorUses(t))
    decreases |insts|
  {
    j := idx;
    if insts != [] && s !in Uses(insts[0]) {
      j := TouchedLater(insts[1..], t, out, idx + 1, s);
    }
  }

  /** A live slot was written earlier in its block, or was live at its start. */
  lemma {:induction false} TouchedEarlier(insts: seq<Instruction>, t: Terminator, out: set<Slot>, i: nat, s: Slot)
    returns (j: nat)
    requires i <= |insts| && s in LiveBefore(insts[i..], t, out)
    ensures (j < i && s in Defs(insts[j])) || (j == 0 && s in LiveBefore(insts, t, out))
    decreases i
  {
    if i == 0 {
      j := 0;
      assert insts[0..] == insts;
    } else if s in Defs(insts[i - 1]) {
      j := i - 1;
    } else {
      assert insts[i - 1..][1..] == insts[i..];
      j := TouchedEarlier(insts, t, out, i - 1, s);
    }
  }

  lemma {:induction false} PointOfInstruction(insts: seq<Instruction>, idx: nat, j: nat, s: Slot)
    requires j < |insts| && s in Uses(insts[j]) + Defs(insts[j])
    ensures (s, idx + j) in InstructionPoints(insts, idx)
    decreases |insts|
  {
    if j > 0 {
      PointOfInstruction(insts[1..], idx + 1, j - 1, s);
    }
  }

  lemma {:induction false} PointsOfSuffix(insts: seq<Instruction>, idx: nat, i: nat)
    requires i <= |insts|
    ensures InstructionPoints(insts[i..], idx + i) <= InstructionPoints(insts, idx)
    decreases i
  {
    hide InstructionPoints;
    if i == 0 {
      assert insts[0..] == insts;
    } else {
      PointsOfSuffix(insts, idx, i - 1);
      PointsStep(insts, i - 1, idx + i - 1);
    }
  }

  /** Wherever a slot is live in a reachable block, its interval contains the index. */
  lemma LiveIsCovered(
      cfg: Cfg, live: LiveInfo, ranges: map<BlockId, Range>, intervals: map<Slot, Interval>, b: BlockId, i: nat,
      s: Slot)
    requires Solution(cfg, live) && Numbering(cfg, ranges) && b in ranges
    requires Hull(intervals, AllPoints(cfg, live, ranges))
    requires i <= |cfg.blocks[b].instructions|
    requires s in LiveBefore(cfg.blocks[b].instructions[i..], cfg.blocks[b].terminator, live.liveOut[b])
    ensures s in intervals && intervals[s].Contains(ranges[b].start + i)
  {
    hide LiveBefore, EquationsAt, Hull, PointsOf;
    var later := TouchedFrom(cfg, live, ranges, b, i, s);
    var earlier := TouchedUntil(cfg, live, ranges, b, i, s);
    var points := AllPoints(cfg, live, ranges);
    assert (s, later) in points && (s, earlier) in points;
    HullContains(intervals, points, s, earlier, ranges[b].start + i, later);
  }

  lemma HullContains(intervals: map<Slot, Interval>, points: Points, s: Slot, i: nat, j: nat, k: nat)
    requires Hull(intervals, points) && (s, i) in points && (s, k) in points && i <= j <= k
    ensures s in intervals && intervals[s].Contains(j)
  {
  }

  lemma TouchedFrom(cfg: Cfg, live: LiveInfo, ranges: map<BlockId, Range>, b: BlockId, i: nat, s: Slot) returns (j: nat)
    requires Numbering(cfg, ranges) && b in ranges && b in live.liveIn && b in live.liveOut
    requires i <= |cfg.blocks[b].instructions|
    requires s in LiveBefore(cfg.blocks[b].instructions[i..], cfg.blocks[b].terminator, live.liveOut[b])
    ensures ranges[b].start + i <= j && (s, j) in PointsOf(cfg, live, ranges, b)
  {
    hide LiveBefore, InstructionPoints, TerminatorUses;
    var block, start := cfg.blocks[b], ranges[b].start;
    j := TouchedLater(block.instructions[i..], block.terminator, live.liveOut[b], start + i, s);
    PointsOfSuffix(block.instructions, start, i);
  }

  lemma TouchedUntil(
      cfg: Cfg, live: LiveInfo, ranges: map<BlockId, Range>, b: BlockId, i: nat, s: Slot)
    returns (j: nat)
    requires Solution(cfg, live) && Numbering(cfg, ranges) && b in ranges
    requires i <= |cfg.blocks[b].instructions|
    requires s in LiveBefore(cfg.blocks[b].instructions[i..], cfg.blocks[b].terminator, live.liveOut[b])
    ensures j <= ranges[b].start + i && (s, j) in PointsOf(cfg, live, ranges, b)
  {
    hide LiveBefore, InstructionPoints, EquationsAt, TerminatorUses, Uses, Defs;
    var block, start := cfg.blocks[b], ranges[b].start;
    LiveInIs(cfg, live, b);
    var k := TouchedEarlier(block.instructions, block.terminator, live.liveOut[b], i, s);
    j := start + k;
    if k < i && s in Defs(block.instructions[k]) {
      PointOfInstruction(block.instructions, start, k, s);
    }
  }

  lemma LiveInIs(cfg: Cfg, live: LiveInfo, b: BlockId)
    requires Solution(cfg, live) && b in cfg.blocks
    ensures live.liveIn[b] == LiveBefore(cfg.blocks[b].instructions, cfg.blocks[b].terminator, live.liveOut[b])
  {
    hide Gen, Kill, LiveBefore;
    assert EquationsAt(cfg, live, b);
    BlockTransfer(cfg.blocks[b], live.liveOut[b]);
  }
}
