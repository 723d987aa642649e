/**
 * SSA renaming (ir/src/ssa_ir.rs): a walk down the dominator tree with a stack of versions
 * for every symbol. It leaves the stacks as it found them, and what it makes of
 * the blocks is a Pass in the sense of RenamingSpec.
 */
module Renaming {
  import opened Wrappers
  import opened Sequences
  import opened Ssa
  import opened PhiPlacement
  import opened RenamingSpec

  type Stacks = map<Symbol, seq<nat>>

  function StackOf(stacks: Stacks, x: Symbol): seq<nat> {
    if x in stacks then stacks[x] else []
  }

  /** The version on top of every non-empty stack. */
  function CurrentEnv(stacks: Stacks): Env {
    map x | x in stacks && stacks[x] != [] :: stacks[x][|stacks[x]| - 1]
  }

  class RenamingContext {
    var counters: Counters
    var stacks: Stacks

    constructor ()
      ensures counters == map[] && stacks == map[]
    {
      counters, stacks := map[], map[];
    }

    method NextVersion(x: Symbol) returns (v: nat)
      modifies this`counters
      ensures v == Count(old(counters), x) && counters == old(counters)[x := v + 1]
    {
      v := if x in counters then counters[x] else 0;
      counters := counters[x := v + 1];
    }

    method Push(x: Symbol, v: nat)
      modifies this`stacks
      ensures stacks == old(stacks)[x := StackOf(old(stacks), x) + [v]]
    {
      stacks := stacks[x := (if x in stacks then stacks[x] else []) + [v]];
    }

    function Top(x: Symbol): (r: Option<nat>)
      reads this
      ensures r == if x in CurrentEnv(stacks) then Some(CurrentEnv(stacks)[x]) else None
    {
      if x in stacks && stacks[x] != [] then Some(stacks[x][|stacks[x]| - 1]) else None
    }

    method Pop(x: Symbol)
      modifies this`stacks
      ensures forall y :: y != x ==> StackOf(stacks, y) == StackOf(old(stacks), y)
      ensures StackOf(old(stacks), x) != [] ==>
                StackOf(stacks, x) == StackOf(old(stacks), x)[..|StackOf(old(stacks), x)| - 1]
    {
      if x in stacks && stacks[x] != [] {
        stacks := stacks[x := stacks[x][..|stacks[x]| - 1]];
      }
    }

    /** A fresh version of x becomes the current one. */
    method Define(x: Symbol) returns (v: nat)
      modifies this
      ensures v == Count(old(counters), x) && counters == old(counters)[x := v + 1]
      ensures stacks == old(stacks)[x := StackOf(old(stacks), x) + [v]]
    {
      v := NextVersion(x);
      Push(x, v);
    }
  }

  // ---------------------------------------------------------------------------
  // Stacks and counters
  // ---------------------------------------------------------------------------

  /** The stacks have grown by one version for every entry of `defs`. */
  ghost predicate Pushed(s0: Stacks, s1: Stacks, defs: seq<Symbol>) {
    forall x :: StackOf(s0, x) <= StackOf(s1, x) && |StackOf(s1, x)| == |StackOf(s0, x)| + multiset(defs)[x]
  }

  ghost predicate SameStacks(s0: Stacks, s1: Stacks) {
    forall x :: StackOf(s0, x) == StackOf(s1, x)
  }

  lemma SameStacksSameEnv(s0: Stacks, s1: Stacks)
    requires SameStacks(s0, s1)
    ensures CurrentEnv(s0) == CurrentEnv(s1)
  {
    forall x ensures x in CurrentEnv(s0) <==> x in CurrentEnv(s1) {
      assert StackOf(s0, x) == StackOf(s1, x);
    }
    forall x | x in CurrentEnv(s0) ensures CurrentEnv(s0)[x] == CurrentEnv(s1)[x] {
      assert StackOf(s0, x) == StackOf(s1, x);
    }
  }

  lemma PushBinds(s: Stacks, x: Symbol, v: nat)
    ensures CurrentEnv(s[x := StackOf(s, x) + [v]]) == CurrentEnv(s)[x := v]
  {
  }

  lemma PushedNext(s0: Stacks, s1: Stacks, defs: seq<Symbol>, x: Symbol, v: nat)
    requires Pushed(s0, s1, defs)
    ensures Pushed(s0, s1[x := StackOf(s1, x) + [v]], defs + [x])
  {
    assert multiset(defs + [x]) == multiset(defs) + multiset{x};
    forall y
      ensures StackOf(s0, y) <= StackOf(s1[x := StackOf(s1, x) + [v]], y)
      ensures |StackOf(s1[x := StackOf(s1, x) + [v]], y)| == |StackOf(s0, y)| + multiset(defs + [x])[y]
    {
      assert StackOf(s0, y) <= StackOf(s1, y);
    }
  }

  /** Distinct registers numbered between two states of the counters. */
  ghost predicate Numbered(regs: seq<Register>, c0: Counters, c1: Counters) {
    CountersGrow(c0, c1) && Distinct(regs) && forall r :: r in regs ==> Between(c0, c1, r)
  }

  lemma NumberedNext(regs: seq<Register>, c0: Counters, c1: Counters, x: Symbol)
    requires Numbered(regs, c0, c1)
    ensures Numbered(regs + [Register(x, Count(c1, x))], c0, c1[x := Count(c1, x) + 1])
  {
    var c2 := c1[x := Count(c1, x) + 1];
    assert forall y :: Count(c1, y) <= Count(c2, y);
    DistinctJoin(regs, [Register(x, Count(c1, x))]);
  }

  lemma NumberedJoin(a: seq<Register>, b: seq<Register>, c0: Counters, c1: Counters, c2: Counters)
    requires Numbered(a, c0, c1) && Numbered(b, c1, c2)
    ensures Numbered(a + b, c0, c2)
  {
    NumberedApart(a, b, c0, c1, c2);
    DistinctJoin(a, b);
  }

  // ---------------------------------------------------------------------------
  // Phi nodes
  // ---------------------------------------------------------------------------

  /** New destinations for the phi nodes of a block; symbols and sources stay. */
  method RenamePhis(phis: seq<Phi>, ctx: RenamingContext) returns (r: seq<Phi>, defs: seq<Symbol>)
    modifies ctx
    ensures SameSymbols(phis, r) && forall k :: 0 <= k < |phis| ==> r[k].sources == phis[k].sources
    ensures CurrentEnv(ctx.stacks) == EnvAfterPhis(CurrentEnv(old(ctx.stacks)), r)
    ensures Pushed(old(ctx.stacks), ctx.stacks, defs)
    ensures Numbered(PhiDests(r), old(ctx.counters), ctx.counters)
  {
    hide Pushed, Numbered, CurrentEnv;
    r, defs := [], [];
    NothingPushed(ctx.stacks, ctx.counters);
    for k := 0 to |phis|
      invariant |r| == k
      invariant forall j :: 0 <= j < k ==> r[j].dest.symbol == phis[j].dest.symbol && r[j].sources == phis[j].sources
      invariant CurrentEnv(ctx.stacks) == EnvAfterPhis(CurrentEnv(old(ctx.stacks)), r)
      invariant Pushed(old(ctx.stacks), ctx.stacks, defs)
      invariant Numbered(PhiDests(r), old(ctx.counters), ctx.counters)
    {
      var x := phis[k].dest.symbol;
      ghost var stacks, counters := ctx.stacks, ctx.counters;
      PushBinds(stacks, x, Count(counters, x));
      PushedNext(old(ctx.stacks), stacks, defs, x, Count(counters, x));
      NumberedNext(PhiDests(r), old(ctx.counters), counters, x);
      var v := ctx.Define(x);
      var phi := Phi(Register(x, v), phis[k].sources);
      assert (r + [phi])[..k] == r;
      r, defs := r + [phi], defs + [x];
    }
  }

  lemma NothingPushed(s: Stacks, c: Counters)
    ensures Pushed(s, s, []) && Numbered([], c, c)
  {
  }

  // ---------------------------------------------------------------------------
  // Instructions
  // ---------------------------------------------------------------------------

  /** Some operand's symbol is not available. */
  ghost predicate Missing(os: seq<Operand>, avail: set<Symbol>) {
    exists k :: 0 <= k < |os| && os[k].Location? && os[k].reg.symbol !in avail
  }

  method RenameAll(os: seq<Operand>, ctx: RenamingContext) returns (r: Option<seq<Operand>>)
    ensures r == RenameOperands(os, CurrentEnv(ctx.stacks))
    ensures r.None? <==> Missing(os, CurrentEnv(ctx.stacks).Keys)
  {
    hide CurrentEnv;
    ghost var env := CurrentEnv(ctx.stacks);
    var done: seq<Operand> := [];
    for k := 0 to |os|
      invariant RenameOperands(os[..k], env) == Some(done)
      invariant forall j :: 0 <= j < k && os[j].Location? ==> os[j].reg.symbol in env.Keys
    {
      assert os[..k + 1][..k] == os[..k];
      match os[k] {
        case Literal(_) => done := done + [os[k]];
        case Location(reg) =>
          match ctx.Top(reg.symbol) {
            case Some(v) => done := done + [Location(Register(reg.symbol, v))];
            case None =>
              assert RenameOperand(os[k], env).None?;
              return None;
          }
      }
    }
    assert os[..|os|] == os;
    r := Some(done);
  }

  /** The symbols a block defines, in its phi nodes or its body. */
  ghost function Defined(b: Block): set<Symbol> {
    ToSet(PhiSymbols(b.phis)) + Assigned(b.body)
  }

  function TerminatorOperands(t: Terminator): seq<Operand> {
    match t
    case Branch(condition, _, _) => [condition]
    case Return(Some(o)) => [o]
    case _ => []
  }

  /** The block reads a symbol that is neither available at its start nor defined in it before. */
  ghost predicate UsesUndefined(b: Block, avail: set<Symbol>) {
    || (exists i :: 0 <= i < |b.body| && BodyMissing(b.body, i, avail + ToSet(PhiSymbols(b.phis))))
    || Missing(TerminatorOperands(b.term), avail + Defined(b))
  }

  ghost predicate BodyMissing(body: seq<Instruction>, i: nat, avail: set<Symbol>)
    requires i < |body|
  {
    Missing(Operands(body[i]), avail + Assigned(body[..i]))
  }

  /** What renaming k instructions has achieved. */
  ghost predicate BodySoFar(
      body: seq<Instruction>, r: seq<Instruction>, k: nat, env: Env, now: Env, s0: Stacks, s1: Stacks,
      defs: seq<Symbol>,
      c0: Counters, c1: Counters)
    requires k <= |body|
  {
    && |r| == k && BodyRenamed(body[..k], r, env)
    && now == EnvAfterBody(env, r) && now.Keys == env.Keys + Assigned(body[..k])
    && Pushed(s0, s1, defs) && Numbered(BodyDests(r), c0, c1)
  }

  lemma BodyNext(
      body: seq<Instruction>, r: seq<Instruction>, k: nat, env: Env, now: Env, s0: Stacks, s1: Stacks,
      defs: seq<Symbol>,
      c0: Counters, c1: Counters, os: seq<Operand>, s2: Stacks, c2: Counters, defs': seq<Symbol>, v: nat)
    requires k < |body| && BodySoFar(body, r, k, env, now, s0, s1, defs, c0, c1) && now == CurrentEnv(s1)
    requires RenameOperands(Operands(body[k]), now) == Some(os)
    requires match DestRegister(body[k]) {
               case Some(d) => v == Count(c1, d.symbol) && c2 == c1[d.symbol := v + 1]
                               && s2 == s1[d.symbol := StackOf(s1, d.symbol) + [v]] && defs' == defs + [d.symbol]
               case None => v == 0 && c2 == c1 && s2 == s1 && defs' == defs }
    ensures BodySoFar(body, r + [Rebuilt(body[k], os, v)], k + 1, env, CurrentEnv(s2), s0, s2, defs', c0, c2)
  {
    hide Pushed, Numbered, CurrentEnv, Assigned, RenameOperands, EnvAfterBody, BodyDests, BodyRenamed, Rebuilt;
    var inst := Rebuilt(body[k], os, v);
    RebuiltDest(body[k], os, v);
    AssignedNext(body, k);
    OneMoreInstruction(env, r, inst);
    BodyRenamedNext(body, r, k, env, os, v);
    if DestRegister(body[k]).Some? {
      var x := DestRegister(body[k]).value.symbol;
      PushBinds(s1, x, v);
      PushedNext(s0, s1, defs, x, v);
      NumberedNext(BodyDests(r), c0, c1, x);
    } else {
      assert Assigned(body[..k + 1]) == Assigned(body[..k]);
    }
  }

  lemma OneMoreInstruction(env: Env, r: seq<Instruction>, inst: Instruction)
    ensures EnvAfterBody(env, r + [inst]) == Bound(EnvAfterBody(env, r), DestRegister(inst))
    ensures BodyDests(r + [inst]) == match DestRegister(inst) { case Some(d) => BodyDests(r) + [d] case None =>
        BodyDests(r) }
  {
    assert (r + [inst])[..|r|] == r;
  }

  lemma RebuiltDest(inst: Instruction, os: seq<Operand>, v: nat)
    requires |os| == |Operands(inst)|
    ensures DestRegister(Rebuilt(inst, os, v)) ==
            match DestRegister(inst) { case Some(d) => Some(Register(d.symbol, v)) case None => None }
  {
  }

  lemma BodyRenamedNext(body: seq<Instruction>, r: seq<Instruction>, k: nat, env: Env, os: seq<Operand>, v: nat)
    requires k < |body| && BodyRenamed(body[..k], r, env)
    requires RenameOperands(Operands(body[k]), EnvAfterBody(env, r)) == Some(os)
    requires DestRegister(body[k]).None? ==> v == 0
    ensures BodyRenamed(body[..k + 1], r + [Rebuilt(body[k], os, v)], env)
  {
    hide EnvAfterBody, RenameOperands;
    var inst := Rebuilt(body[k], os, v);
    var r' := r + [inst];
    RebuiltDest(body[k], os, v);
    forall i | 0 <= i < k + 1
      ensures RenameInstruction(body[..k + 1][i], EnvAfterBody(env, r'[..i]), VersionOf(r'[i])) == Some(r'[i])
    {
      if i < k {
        assert r'[..i] == r[..i] && body[..k + 1][i] == body[..k][i];
      } else {
        assert r'[..i] == r;
      }
    }
  }

  method RenameBody(
      body: seq<Instruction>, ctx: RenamingContext)
    returns (ok: bool, r: seq<Instruction>, defs: seq<Symbol>)
    modifies ctx
    ensures ok <==> forall i :: 0 <= i < |body| ==> !BodyMissing(body, i, CurrentEnv(old(ctx.stacks)).Keys)
    ensures ok ==> BodySoFar(body, r, |body|, CurrentEnv(old(ctx.stacks)), CurrentEnv(ctx.stacks),
                             old(ctx.stacks), ctx.stacks, defs, old(ctx.counters), ctx.counters)
  {
    hide BodySoFar, CurrentEnv, Missing;
    ghost var env, s0, c0 := CurrentEnv(ctx.stacks), ctx.stacks, ctx.counters;
    ok, r, defs := true, [], [];
    BodyStarts(body, env, ctx.stacks, ctx.counters);
    for k := 0 to |body|
      invariant ok && BodySoFar(body, r, k, env, CurrentEnv(ctx.stacks), s0, ctx.stacks, defs, c0, ctx.counters)
      invariant forall i :: 0 <= i < k ==> !BodyMissing(body, i, env.Keys)
    {
      ghost var stacks, counters, before := ctx.stacks, ctx.counters, defs;
      EnvKeys(body, r, k, env, CurrentEnv(stacks), s0, stacks, defs, c0, counters);
      var os := RenameAll(Operands(body[k]), ctx);
      if os.None? {
        assert BodyMissing(body, k, env.Keys);
        return false, r, defs;
      }
      var v := 0;
      if DestRegister(body[k]).Some? {
        v := ctx.Define(DestRegister(body[k]).value.symbol);
        defs := defs + [DestRegister(body[k]).value.symbol];
      }
      BodyNext(body, r, k, env, CurrentEnv(stacks), s0, stacks, before, c0, counters, os.value, ctx.stacks,
          ctx.counters, defs, v);
      r := r + [Rebuilt(body[k], os.value, v)];
    }
  }

  lemma BodyStarts(body: seq<Instruction>, env: Env, s: Stacks, c: Counters)
    requires env == CurrentEnv(s)
    ensures BodySoFar(body, [], 0, env, env, s, s, [], c, c)
  {
    NothingPushed(s, c);
  }

  lemma EnvKeys(
      body: seq<Instruction>, r: seq<Instruction>, k: nat, env: Env, now: Env, s0: Stacks, s1: Stacks,
      defs: seq<Symbol>,
      c0: Counters, c1: Counters)
    requires k <= |body| && BodySoFar(body, r, k, env, now, s0, s1, defs, c0, c1)
    ensures now.Keys == env.Keys + Assigned(body[..k])
  {
  }

  // ---------------------------------------------------------------------------
  // Terminators
  // ---------------------------------------------------------------------------

  method RenameTerm(t: Terminator, ctx: RenamingContext) returns (r: Option<Terminator>)
    ensures r == RenameTerminator(t, CurrentEnv(ctx.stacks))
    ensures r.None? <==> Missing(TerminatorOperands(t), CurrentEnv(ctx.stacks).Keys)
  {
    hide CurrentEnv;
    var os := RenameAll(TerminatorOperands(t), ctx);
    TerminatorByOperands(t, CurrentEnv(ctx.stacks));
    if os.None? {
      return None;
    }
    match t
    case Branch(_, thenBlock, elseBlock) => r := Some(Branch(os.value[0], thenBlock, elseBlock));
    case Return(Some(_)) => r := Some(Return(Some(os.value[0])));
    case _ => r := Some(t);
  }

  lemma TerminatorByOperands(t: Terminator, env: Env)
    ensures match RenameOperands(TerminatorOperands(t), env)
            case None => RenameTerminator(t, env) == None
            case Some(os) =>
              RenameTerminator(t, env) == Some(
                match t
                case Branch(_, thenBlock, elseBlock) => Branch(os[0], thenBlock, elseBlock)
                case Return(Some(_)) => Return(Some(os[0]))
                case _ => t)
  {
    var os := TerminatorOperands(t);
    if |os| == 1 {
      assert os[..0] == [];
    }
  }

  // ---------------------------------------------------------------------------
  // One block
  // ---------------------------------------------------------------------------

  /** The block with new phi destinations, body and terminator is the old one renamed. */
  lemma BlockIsRenamed(b0: Block, b1: Block, env: Env, now: Env)
    requires SameSymbols(b0.phis, b1.phis) && BodyRenamed(b0.body, b1.body, EnvAfterPhis(env, b1.phis))
    requires now == EnvAfterBody(EnvAfterPhis(env, b1.phis), b1.body)
    requires RenameTerminator(b0.term, now) == Some(b1.term)
    requires b1.predecessors == b0.predecessors && b1.successors == b0.successors
    ensures BlockRenamed(b0, b1, env) && EnvOut(env, b1) == now
  {
  }

  lemma {:induction false} PhiEnvKeys(env: Env, phis: seq<Phi>)
    ensures EnvAfterPhis(env, phis).Keys == env.Keys + ToSet(PhiSymbols(phis))
  {
    if phis != [] {
      var n := |phis| - 1;
      PhiEnvKeys(env, phis[..n]);
      assert PhiSymbols(phis) == PhiSymbols(phis[..n]) + [phis[n].dest.symbol];
      assert ToSet(PhiSymbols(phis)) == ToSet(PhiSymbols(phis[..n])) + {phis[n].dest.symbol};
    }
  }

  lemma SymbolsOfSame(phis0: seq<Phi>, phis1: seq<Phi>)
    requires SameSymbols(phis0, phis1)
    ensures PhiSymbols(phis0) == PhiSymbols(phis1)
  {
  }

  lemma PushedTwice(s0: Stacks, s1: Stacks, s2: Stacks, d1: seq<Symbol>, d2: seq<Symbol>)
    requires Pushed(s0, s1, d1) && Pushed(s1, s2, d2)
    ensures Pushed(s0, s2, d1 + d2)
  {
    assert multiset(d1 + d2) == multiset(d1) + multiset(d2);
    forall x ensures StackOf(s0, x) <= StackOf(s2, x) && |StackOf(s2, x)| == |StackOf(s0, x)| + multiset(d1 + d2)[x] {
      assert StackOf(s0, x) <= StackOf(s1, x) && StackOf(s1, x) <= StackOf(s2, x);
    }
  }

  /** Renaming the contents of one block; its successors are told later. */
  method RenameBlock(b0: Block, ctx: RenamingContext) returns (ok: bool, b1: Block, defs: seq<Symbol>)
    modifies ctx
    ensures ok <==> !UsesUndefined(b0, CurrentEnv(old(ctx.stacks)).Keys)
    ensures ok ==> BlockRenamed(b0, b1, CurrentEnv(old(ctx.stacks)))
    ensures ok ==> SameSymbols(b0.phis, b1.phis) && forall k :: 0 <= k < |b0.phis| ==>
        b1.phis[k].sources == b0.phis[k].sources
    ensures ok ==> CurrentEnv(ctx.stacks) == EnvOut(CurrentEnv(old(ctx.stacks)), b1)
    ensures ok ==> CurrentEnv(ctx.stacks).Keys == CurrentEnv(old(ctx.stacks)).Keys + Defined(b0)
    ensures ok ==> Pushed(old(ctx.stacks), ctx.stacks, defs)
    ensures ok ==> Numbered(Dests(b1), old(ctx.counters), ctx.counters)
  {
    hide CurrentEnv, Missing, Pushed, Numbered, RenameTerminator, BodySoFar, EnvAfterPhis, EnvAfterBody, Assigned,
        BodyMissing, BlockRenamed;
    b1, defs := b0, [];
    ghost var env, s0, c0 := CurrentEnv(ctx.stacks), ctx.stacks, ctx.counters;
    var phis, phiDefs := RenamePhis(b0.phis, ctx);
    PhiEnvKeys(env, phis);
    SymbolsOfSame(b0.phis, phis);
    ghost var mid, s1, c1 := CurrentEnv(ctx.stacks), ctx.stacks, ctx.counters;
    var body, bodyDefs;
    ok, body, bodyDefs := RenameBody(b0.body, ctx);
    if !ok {
      return;
    }
    BodyFacts(b0.body, body, mid, CurrentEnv(ctx.stacks), s1, ctx.stacks, bodyDefs, c1, ctx.counters);
    EnvKeysEqual(env, mid, b0, CurrentEnv(ctx.stacks));
    var term := RenameTerm(b0.term, ctx);
    if term.None? {
      return false, b1, defs;
    }
    b1 := Block(phis, body, term.value, b0.predecessors, b0.successors);
    defs := phiDefs + bodyDefs;
    BlockIsRenamed(b0, b1, env, CurrentEnv(ctx.stacks));
    PushedTwice(s0, s1, ctx.stacks, phiDefs, bodyDefs);
    NumberedJoin(PhiDests(phis), BodyDests(body), c0, c1, ctx.counters);
  }

  lemma BodyFacts(
      body: seq<Instruction>, r: seq<Instruction>, env: Env, now: Env, s0: Stacks, s1: Stacks, defs: seq<Symbol>,
      c0: Counters, c1: Counters)
    requires BodySoFar(body, r, |body|, env, now, s0, s1, defs, c0, c1)
    ensures BodyRenamed(body, r, env) && now == EnvAfterBody(env, r) && now.Keys == env.Keys + Assigned(body)
    ensures Pushed(s0, s1, defs) && Numbered(BodyDests(r), c0, c1)
  {
    assert body[..|body|] == body;
  }

  lemma EnvKeysEqual(env: Env, mid: Env, b: Block, now: Env)
    requires mid.Keys == env.Keys + ToSet(PhiSymbols(b.phis)) && now.Keys == mid.Keys + Assigned(b.body)
    ensures now.Keys == env.Keys + Defined(b)
  {
  }

  // ---------------------------------------------------------------------------
  // Telling the successors
  // ---------------------------------------------------------------------------

  function FillPhi(phi: Phi, p: BlockId, env: Env): Phi {
    if phi.dest.symbol in env then
      phi.(sources := phi.sources + [(p, Register(phi.dest.symbol, env[phi.dest.symbol]))])
    else phi
  }

  function FillPhis(phis: seq<Phi>, p: BlockId, env: Env): seq<Phi> {
    seq(|phis|, k requires 0 <= k < |phis| => FillPhi(phis[k], p, env))
  }

  function Filled(blocks: Blocks, targets: set<BlockId>, p: BlockId, env: Env): Blocks {
    map c | c in blocks :: if c in targets then blocks[c].(phis := FillPhis(blocks[c].phis, p, env)) else blocks[c]
  }

  method FillBlockPhis(phis: seq<Phi>, p: BlockId, ctx: RenamingContext) returns (r: seq<Phi>)
    ensures r == FillPhis(phis, p, CurrentEnv(ctx.stacks))
  {
    hide CurrentEnv;
    r := [];
    for k := 0 to |phis|
      invariant r == FillPhis(phis, p, CurrentEnv(ctx.stacks))[..k]
    {
      var phi := phis[k];
      match ctx.Top(phi.dest.symbol) {
        case Some(version) => phi := phi.(sources := phi.sources + [(p, Register(phi.dest.symbol, version))]);
        case None =>
      }
      r := r + [phi];
    }
  }

  method FillSuccessorPhis(f: SsaFunction, p: BlockId, ctx: RenamingContext)
    requires p in f.blocks && Distinct(f.blocks[p].successors)
    requires forall c :: c in f.blocks[p].successors ==> c in f.blocks
    modifies f`blocks
    ensures f.blocks == Filled(old(f.blocks), ToSet(old(f.blocks[p].successors)), p, CurrentEnv(ctx.stacks))
  {
    hide CurrentEnv, FillPhis;
    var successors := f.blocks[p].successors;
    NothingFilled(f.blocks, p, CurrentEnv(ctx.stacks));
    for k := 0 to |successors|
      invariant f.blocks == Filled(old(f.blocks), ToSet(successors[..k]), p, CurrentEnv(ctx.stacks))
    {
      PrefixGrows(successors, k);
      NotBefore(successors, k);
      OneFilled(old(f.blocks), ToSet(successors[..k]), p, CurrentEnv(ctx.stacks), successors[k]);
      var phis := FillBlockPhis(f.blocks[successors[k]].phis, p, ctx);
      f.blocks := f.blocks[successors[k] := f.blocks[successors[k]].(phis := phis)];
    }
    assert successors[..|successors|] == successors;
  }

  lemma NothingFilled(blocks: Blocks, p: BlockId, env: Env)
    ensures Filled(blocks, ToSet([]), p, env) == blocks
  {
    hide FillPhis;
  }

  lemma OneFilled(blocks: Blocks, s: set<BlockId>, p: BlockId, env: Env, c: BlockId)
    requires c in blocks && c !in s
    ensures var now := Filled(blocks, s, p, env);
            && c in now
            && now[c := now[c].(phis := FillPhis(now[c].phis, p, env))] == Filled(blocks, s + {c}, p, env)
  {
    hide FillPhis;
  }
}
