/**
 * The pipeline of a contract's functions: dead instructions go first, then the
 * frames are laid out and the code is emitted. What the bytes do is what the
 * functions meant before the optimiser touched them.
 */
module Pipeline {
  import opened Wrappers
  import opened Words
  import opened Bytes
  import opened Evm
  import opened Lowered
  import opened Semantics
  import opened Image
  import opened ProgramTheorem
  import opened Assembler
  import opened ByteMachine
  import opened Compiler
  import opened DeadCode
  import opened DeadCodeMeaning
  import opened EndToEnd

  /** The program that a list of functions is. */
  function ProgramFrom(fs: seq<LoweredFunction>): (p: Program)
    requires forall i, j :: 0 <= i < j < |fs| ==> fs[i].id != fs[j].id
    ensures forall i :: 0 <= i < |fs| ==> fs[i].id in p && p[fs[i].id] == fs[i].fn
    ensures forall fn :: fn in p ==> exists i :: 0 <= i < |fs| && fs[i].id == fn
  {
    if fs == [] then map[]
    else
      var init, last := fs[..|fs| - 1], fs[|fs| - 1];
      assert forall i :: 0 <= i < |init| ==> init[i] == fs[i];
      ProgramFrom(init)[last.id := last.fn]
  }

  /** The same function, but for dead instructions that are gone. */
  ghost predicate OptimizedAt(f: LoweredFunction, g: LoweredFunction) {
    && g == f.(fn := f.fn.(cfg := g.fn.cfg))
    && Reduced(f.fn.cfg, g.fn.cfg) && NothingDead(g.fn.cfg)
  }

  ghost predicate OptimizedAll(fs: seq<LoweredFunction>, gs: seq<LoweredFunction>) {
    |gs| == |fs| && forall i {:trigger OptimizedAt(fs[i], gs[i])} :: 0 <= i < |fs| ==> OptimizedAt(fs[i], gs[i])
  }

  /** What is left of a well-formed function is one. */
  lemma StillInput(f: LoweredFunction, g: LoweredFunction)
    requires InputOk(f) && OptimizedAt(f, g)
    ensures InputOk(g)
  {
    hide UsedSlots, Dropped, NothingDead, SlotsListedAt, WellFormed;
    StillWellFormed(f.fn.cfg, g.fn.cfg);
    forall b | b in g.fn.cfg.blocks ensures SlotsListedAt(g, b) {
      SlotsStillListed(f, g, b);
    }
  }

  lemma StillWellFormed(a: Cfg, b: Cfg)
    requires WellFormed(a) && Reduced(a, b)
    ensures WellFormed(b) && b.blocks[b.entry].predecessors == a.blocks[a.entry].predecessors
  {
    hide Reduced, WellFormed, TerminatorTargets;
    SameEdges(a, b);
    EdgesLinked(a);
    forall x, s | x in b.blocks && s in b.blocks[x].successors ensures s in b.blocks && x in b.blocks[s].predecessors {
      assert s in a.blocks[x].successors;
    }
    forall x, q | x in b.blocks && q in b.blocks[x].predecessors ensures q in b.blocks && x in b.blocks[q].successors {
      assert q in a.blocks[x].predecessors;
    }
    IsWellFormed(b);
  }

  lemma SameEdges(a: Cfg, b: Cfg)
    requires Reduced(a, b)
    ensures a.entry == b.entry && a.blocks.Keys == b.blocks.Keys
    ensures forall x :: x in a.blocks ==>
              && b.blocks[x].successors == a.blocks[x].successors
                  && b.blocks[x].predecessors == a.blocks[x].predecessors
              && b.blocks[x].terminator == a.blocks[x].terminator
  {
    hide UsedSlots, Dropped;
    forall x | x in a.blocks ensures ReducedAt(a.blocks[x], b.blocks[x], UsedSlots(b)) {
    }
  }

  lemma SlotsStillListed(f: LoweredFunction, g: LoweredFunction, b: BlockId)
    requires InputOk(f) && OptimizedAt(f, g) && b in g.fn.cfg.blocks
    ensures SlotsListedAt(g, b)
  {
    hide UsedSlots, Dropped, NothingDead, Uses, Defs, TerminatorUses, WellFormed;
    assert ReducedAt(f.fn.cfg.blocks[b], g.fn.cfg.blocks[b], UsedSlots(g.fn.cfg));
    assert SlotsListedAt(f, b);
    StillListed(f.fn.cfg.blocks[b].instructions, g.fn.cfg.blocks[b].instructions, f.slots, UsedSlots(g.fn.cfg));
  }

  lemma StillListed(a: seq<Instruction>, b: seq<Instruction>, slots: set<Slot>, used: set<Slot>)
    requires Dropped(a, b, used) && forall i :: 0 <= i < |a| ==> Uses(a[i]) + Defs(a[i]) <= slots
    ensures forall i :: 0 <= i < |b| ==> Uses(b[i]) + Defs(b[i]) <= slots
  {
    hide Uses, Defs;
    KeptFrom(a, b, used);
  }

  lemma {:induction false} KeptFrom(a: seq<Instruction>, b: seq<Instruction>, used: set<Slot>)
    requires Dropped(a, b, used)
    ensures forall i :: 0 <= i < |b| ==> b[i] in a
  {
    if a != [] {
      if b != [] && a[0] == b[0] && Dropped(a[1..], b[1..], used) {
        KeptFrom(a[1..], b[1..], used);
      } else {
        KeptFrom(a[1..], b, used);
      }
    }
  }

  /** The optimiser, run on every function until nothing changes. */
  method OptimizeFunctions(fs: seq<LoweredFunction>) returns (gs: seq<LoweredFunction>)
    requires InputsOk(fs)
    ensures OptimizedAll(fs, gs) && InputsOk(gs)
  {
    hide InputOk, OptimizedAt;
    gs := [];
    for k := 0 to |fs|
      invariant OptimizedAll(fs[..k], gs)
      invariant forall i :: 0 <= i < k ==> InputOk(gs[i]) && gs[i].id == fs[i].id
    {
      var cfg := new LoweredCfg(fs[k].fn.cfg);
      cfg.RunToFixedPoint();
      var g := fs[k].(fn := fs[k].fn.(cfg := cfg.cfg));
      assert OptimizedAt(fs[k], g) by { OptimizedIs(fs[k], g); }
      StillInput(fs[k], g);
      OptimizedNext(fs, gs, k, g);
      gs := gs + [g];
    }
    assert fs[..|fs|] == fs;
  }

  lemma OptimizedIs(f: LoweredFunction, g: LoweredFunction)
    requires g == f.(fn := f.fn.(cfg := g.fn.cfg)) && Reduced(f.fn.cfg, g.fn.cfg) && NothingDead(g.fn.cfg)
    ensures OptimizedAt(f, g)
  {
  }

  lemma OptimizedNext(fs: seq<LoweredFunction>, gs: seq<LoweredFunction>, k: nat, g: LoweredFunction)
    requires k < |fs| && OptimizedAll(fs[..k], gs) && OptimizedAt(fs[k], g)
    ensures OptimizedAll(fs[..k + 1], gs + [g])
  {
    hide OptimizedAt;
    var longer := fs[..k + 1];
    forall i | 0 <= i < |longer| ensures OptimizedAt(longer[i], (gs + [g])[i]) {
      if i < k {
        assert OptimizedAt(fs[..k][i], gs[i]);
      }
    }
  }

  /** From functions to bytes, the optimiser first. */
  method CompileContract(fs: seq<LoweredFunction>, ghost reach: map<FnId, set<FnId>>)
    returns (r: Result<seq<Byte>>, ghost gs: seq<LoweredFunction>, ghost img: Image)
    requires InputsOk(fs)
    ensures OptimizedAll(fs, gs)
    ensures r.Ok? ==> Linked(img, gs) && img.reach == reach && r.value == Assembled(img.code, None)
    ensures r.Ok? ==> Faultless(img) && LaidOut(img, gs, [])
    ensures r.Err? ==> SomeStops(gs, r.error)
  {
    hide InputsOk, OptimizedAll, Linked, Assembled, SomeStops, Faultless, LaidOut;
    var optimized := OptimizeFunctions(fs);
    gs := optimized;
    r, img := CompileFunctions(optimized, reach);
  }

  /** The compiled program is the optimised one. */
  lemma LinkedIsOptimized(img: Image, fs: seq<LoweredFunction>, gs: seq<LoweredFunction>)
    requires InputsOk(fs) && OptimizedAll(fs, gs) && Linked(img, gs)
    ensures Optimized(ProgramFrom(fs), ProgramOf(img.units))
  {
    hide InputOk, Reduced, OptimizedAt, Linked, OptimizedAll, ProgramOf;
    LinkedUnits(img, gs);
    var p, q := ProgramFrom(fs), ProgramOf(img.units);
    forall fn | fn in p || fn in q
      ensures fn in p && fn in q && q[fn] == p[fn].(cfg := q[fn].cfg) && Reduced(p[fn].cfg, q[fn].cfg)
    {
      var i := PlaceOf(fs, gs, p, q, fn);
      UnitsOptimized(fs, gs, i);
    }
  }

  lemma LinkedUnits(img: Image, gs: seq<LoweredFunction>)
    requires Linked(img, gs)
    ensures forall i :: 0 <= i < |gs| ==> gs[i].id in ProgramOf(img.units) && ProgramOf(img.units)[gs[i].id] == gs[i].fn
    ensures forall fn :: fn in ProgramOf(img.units) ==> exists i :: 0 <= i < |gs| && gs[i].id == fn
  {
    hide LinkedAt, UniqueMarks, FramesApart;
  }

  lemma PlaceOf(fs: seq<LoweredFunction>, gs: seq<LoweredFunction>, p: Program, q: Program, fn: FnId) returns (i: nat)
    requires OptimizedAll(fs, gs) && (fn in p || fn in q)
    requires fn in p ==> exists i :: 0 <= i < |fs| && fs[i].id == fn
    requires fn in q ==> exists i :: 0 <= i < |gs| && gs[i].id == fn
    ensures i < |fs| == |gs| && fs[i].id == fn && gs[i].id == fn
  {
    hide Reduced, NothingDead;
    if fn in p {
      i :| 0 <= i < |fs| && fs[i].id == fn;
    } else {
      i :| 0 <= i < |gs| && gs[i].id == fn;
    }
    assert OptimizedAt(fs[i], gs[i]);
  }

  lemma UnitsOptimized(fs: seq<LoweredFunction>, gs: seq<LoweredFunction>, i: nat)
    requires OptimizedAll(fs, gs) && i < |fs|
    ensures gs[i].fn == fs[i].fn.(cfg := gs[i].fn.cfg) && Reduced(fs[i].fn.cfg, gs[i].fn.cfg)
  {
    hide Reduced, NothingDead;
    assert OptimizedAt(fs[i], gs[i]);
  }

  /** Matching the optimised run is matching the original one: they agree on storage and on how they end. */
  lemma MatchesOriginal(
      p: Program, q: Program, bytes: seq<Byte>, c: Config, d: Config, cont: Word, base: seq<Word>, m: Machine)
    requires ConfigsMatch(p, q, c, d) && ByteMatches(bytes, d, cont, base, m)
    ensures ByteMatches(bytes, c, cont, base, m)
  {
    hide FramesMatch, ByteStep;
  }

  /**
   * The main theorem. Compile functions with the optimiser on and invoke one of
   * them: whatever the functions as they were handed in do in k steps, the
   * compiled bytes reach a matching state. On return the machine is at the
   * continuation with exactly the result on the untouched stack and the source's
   * storage; on a trap it has halted; while the source runs, storage agrees and the
   * machine runs on as well, however long the source does.
   */
  lemma ContractCorrect(
      img: Image, fs: seq<LoweredFunction>, gs: seq<LoweredFunction>, fn: FnId, args: seq<Word>, cont: Word, exit: nat,
      base: seq<Word>, m: Machine, k: nat, longest: nat)
    returns (m': Machine, n: nat)
    requires InputsOk(fs) && OptimizedAll(fs, gs)
    requires Linked(img, gs) && Admissible(img, gs) && fn in img.units && fn in img.calls && fn in img.reach
    requires |args| == |img.units[fn].fn.parameters| && m.pc <= |img.code|
    requires JumpTarget(img.code, cont) == Some(exit)
    requires Invoked(img, fn, args, cont, base, m)
    ensures ByteIterate(Assembled(img.code, None), Lower(img.code, m), n) == Some(m')
    ensures var c := SourceSteps(ProgramFrom(fs), Running([Start(img, fn, args)], m.local.storage), k);
            && ByteMatches(Assembled(img.code, None), c, cont, base, m')
            && (BlocksAtMost(ProgramFrom(fs), longest) && c.Running? ==>
                (longest + 1) * ((n + 1) * (|img.code| + 1)) > k)
  {
    hide InputOk, OptimizedAll, Linked, Admissible, Invoked, SourceSteps, ByteIterate, Assembled, ByteMatches,
        ConfigsMatch, Optimized, Ahead, BlocksAtMost;
    var p, q := ProgramFrom(fs), ProgramOf(img.units);
    LinkedIsOptimized(img, fs, gs);
    var start := Running([Start(img, fn, args)], m.local.storage);
    StartMatches(img, p, fn, args, m.local.storage);
    var j := OptimizationPreservesMeaning(p, q, start, start, k, longest);
    m', n := CompiledBytesCorrect(img, gs, fn, args, cont, exit, base, m, j);
    MatchesOriginal(p, q, Assembled(img.code, None), SourceSteps(p, start, k), SourceSteps(q, start, j), cont, base,
        m');
    if BlocksAtMost(p, longest) && SourceSteps(p, start, k).Running? {
      AheadAtMost(p, start, longest);
      BothRun(p, q, SourceSteps(p, start, k), SourceSteps(q, start, j));
      InFewRounds(longest, k, j, (n + 1) * (|img.code| + 1));
    }
  }

  lemma InFewRounds(longest: nat, k: nat, j: nat, rounds: nat)
    requires k <= (longest + 1) * j + longest && rounds > j
    ensures (longest + 1) * rounds > k
  {
    assert (longest + 1) * rounds >= (longest + 1) * (j + 1);
  }

  /** Both programs start the invoked function alike. */
  lemma StartMatches(img: Image, p: Program, fn: FnId, args: seq<Word>, storage: map<Word, Word>)
    requires fn in img.units && |args| == |img.units[fn].fn.parameters| && Optimized(p, ProgramOf(img.units))
    ensures var c := Running([Start(img, fn, args)], storage); ConfigsMatch(p, ProgramOf(img.units), c, c)
  {
    hide ConfigsMatch, NothingDead;
    StartsMatch(p, ProgramOf(img.units), fn, Bind(img.units[fn].fn.parameters, args), storage);
  }
}
