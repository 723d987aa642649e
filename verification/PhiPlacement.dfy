/**
 * Phi placement (ir/src/ssa_ir.rs): for each symbol, a worklist over the dominance
 * frontiers of its definition sites. The blocks that get a phi node are exactly
 * those in the least set closed under frontiers.
 */
module PhiPlacement {
  import opened Sequences
  import opened Graphs
  import opened Frontier
  import opened Ssa

  /** Frontiers of the sites and of the set's own members lie in the set. */
  ghost predicate ClosedUnder(df: Frontiers, sites: set<BlockId>, s: set<BlockId>) {
    forall b :: b in df && (b in sites || b in s) ==> df[b] <= s
  }

  /** The block is in every closed set, that is, in the least one. */
  ghost predicate NeedsPhi(df: Frontiers, sites: set<BlockId>, b: BlockId) {
    forall s :: ClosedUnder(df, sites, s) ==> b in s
  }

  function EmptyPhi(x: Symbol): Phi {
    Phi(Register(x, 0), [])
  }

  /** The blocks with a phi node for x put in front of those in `s`. */
  function WithPhis(blocks: Blocks, x: Symbol, s: set<BlockId>): Blocks {
    map b | b in blocks :: if b in s then blocks[b].(phis := [EmptyPhi(x)] + blocks[b].phis) else blocks[b]
  }

  /** Every block placed is needed; what is not on the worklist has passed its frontier on. */
  ghost predicate Spreading(df: Frontiers, sites: set<BlockId>, worklist: seq<BlockId>, placed: set<BlockId>) {
    && (forall b :: b in placed ==> NeedsPhi(df, sites, b))
    && (forall b :: b in worklist ==> b in sites || b in placed)
    && (forall b :: b in df && (b in sites || b in placed) ==> b in worklist || df[b] <= placed)
  }

  lemma NeedsPhiNext(df: Frontiers, sites: set<BlockId>, b: BlockId, c: BlockId)
    requires b in df && c in df[b] && (b in sites || NeedsPhi(df, sites, b))
    ensures NeedsPhi(df, sites, c)
  {
    forall s | ClosedUnder(df, sites, s) ensures c in s {
      assert b in sites || b in s;
    }
  }

  lemma SpreadingDone(df: Frontiers, sites: set<BlockId>, placed: set<BlockId>)
    requires Spreading(df, sites, [], placed)
    ensures ClosedUnder(df, sites, placed)
    ensures forall b :: b in placed <==> NeedsPhi(df, sites, b)
  {
    forall b | NeedsPhi(df, sites, b) ensures b in placed {
      assert ClosedUnder(df, sites, placed);
    }
  }

  /** Where x is defined: the blocks that assign it, and the entry for parameters. */
  ghost predicate DefinedIn(blocks: Blocks, entry: BlockId, parameters: seq<Symbol>, x: Symbol, b: BlockId) {
    b in blocks && (x in Assigned(blocks[b].body) || (b == entry && x in parameters))
  }

  ghost function SitesOf(blocks: Blocks, entry: BlockId, parameters: seq<Symbol>, x: Symbol): set<BlockId> {
    set b | b in blocks && DefinedIn(blocks, entry, parameters, x, b)
  }

  /** A block's phi nodes: distinct symbols, no sources yet, and exactly the symbols in `wanted` that need one here. */
  ghost predicate PhisAt(
      df: Frontiers, blocks: Blocks, entry: BlockId, parameters: seq<Symbol>, wanted: set<Symbol>, b: BlockId,
      phis: seq<Phi>)
  {
    && Distinct(PhiSymbols(phis))
    && (forall i :: 0 <= i < |phis| ==> phis[i] == EmptyPhi(phis[i].dest.symbol))
    && forall x :: x in PhiSymbols(phis) <==>
                   x in wanted && NeedsPhi(df, SitesOf(blocks, entry, parameters, x), b)
  }

  /** Only phi nodes were added, and they are the right ones for the symbols in `wanted`. */
  ghost predicate PlacedFor(
      df: Frontiers, blocks0: Blocks, entry: BlockId, parameters: seq<Symbol>, wanted: set<Symbol>, blocks1: Blocks)
  {
    && blocks1.Keys == blocks0.Keys
    && forall b :: b in blocks0 ==>
         && blocks1[b] == blocks0[b].(phis := blocks1[b].phis)
         && PhisAt(df, blocks0, entry, parameters, wanted, b, blocks1[b].phis)
  }

  lemma PhisAtNext(
      df: Frontiers, blocks: Blocks, entry: BlockId, parameters: seq<Symbol>, wanted: set<Symbol>, b: BlockId,
      phis: seq<Phi>, x: Symbol, needed: bool)
    requires PhisAt(df, blocks, entry, parameters, wanted, b, phis) && x !in wanted
    requires needed <==> NeedsPhi(df, SitesOf(blocks, entry, parameters, x), b)
    ensures PhisAt(df, blocks, entry, parameters, wanted + {x}, b, if needed then [EmptyPhi(x)] + phis else phis)
  {
    hide NeedsPhi, SitesOf;
    var new_ := if needed then [EmptyPhi(x)] + phis else phis;
    assert x !in PhiSymbols(phis);
    if needed {
      assert PhiSymbols(new_) == [x] + PhiSymbols(phis);
      DistinctJoin([x], PhiSymbols(phis));
    }
  }

  lemma PlacedNext(
      df: Frontiers, blocks0: Blocks, entry: BlockId, parameters: seq<Symbol>, wanted: set<Symbol>, blocks1: Blocks,
      x: Symbol, placed: set<BlockId>)
    requires PlacedFor(df, blocks0, entry, parameters, wanted, blocks1) && x !in wanted
    requires forall b :: b in placed <==> NeedsPhi(df, SitesOf(blocks0, entry, parameters, x), b)
    ensures PlacedFor(df, blocks0, entry, parameters, wanted + {x}, WithPhis(blocks1, x, placed))
  {
    hide NeedsPhi, SitesOf, PhisAt;
    forall b | b in blocks0
      ensures PhisAt(df, blocks0, entry, parameters, wanted + {x}, b, WithPhis(blocks1, x, placed)[b].phis)
    {
      PhisAtNext(df, blocks0, entry, parameters, wanted, b, blocks1[b].phis, x, b in placed);
    }
  }

  /** The control-flow graph as the SSA passes edit it in place. */
  class SsaFunction {
    var blocks: Blocks
    const entry: BlockId
    const parameters: seq<Symbol>

    constructor (blocks: Blocks, entry: BlockId, parameters: seq<Symbol>)
      ensures this.blocks == blocks && this.entry == entry && this.parameters == parameters
    {
      this.blocks, this.entry, this.parameters := blocks, entry, parameters;
    }

    method PlacePhisForVariable(x: Symbol, sites: seq<BlockId>, df: Frontiers) returns (placed: set<BlockId>)
      requires df.Keys == blocks.Keys && (forall b :: b in sites ==> b in df)
      requires forall b :: b in df ==> df[b] <= df.Keys
      modifies this`blocks
      ensures blocks == WithPhis(old(blocks), x, placed)
      ensures ClosedUnder(df, ToSet(sites), placed)
      ensures forall b :: b in placed <==> NeedsPhi(df, ToSet(sites), b)
    {
      hide NeedsPhi, ClosedUnder, WithPhis, Distinct, EmptyPhi;
      placed := {};
      var worklist := sites;
      NothingPlaced(blocks, x);
      while worklist != []
        invariant placed <= df.Keys && (forall b :: b in worklist ==> b in df)
        invariant blocks == WithPhis(old(blocks), x, placed)
        invariant Spreading(df, ToSet(sites), worklist, placed)
        decreases df.Keys - placed, |worklist|
      {
        var n := |worklist| - 1;
        var b := worklist[n];
        ghost var before, pending := placed, worklist;
        worklist := worklist[..n];
        var frontier := AnyOrder(df[b]);
        for k := 0 to |frontier|
          invariant before <= placed <= df.Keys && (forall c :: c in worklist ==> c in df)
          invariant placed == before + ToSet(frontier[..k])
          invariant blocks == WithPhis(old(blocks), x, placed)
          invariant pending[..n] <= worklist && (placed == before ==> worklist == pending[..n])
          invariant forall c :: c in worklist <==> c in pending[..n] || (c in placed && c !in before)
        {
          PrefixGrows(frontier, k);
          var c := frontier[k];
          assert c in df[b];
          if c !in placed {
            OnePlaced(old(blocks), x, placed, c);
            blocks := blocks[c := blocks[c].(phis := [EmptyPhi(x)] + blocks[c].phis)];
            placed := placed + {c};
            worklist := worklist + [c];
          }
        }
        assert frontier[..|frontier|] == frontier;
        SpreadStep(df, ToSet(sites), pending, before, b, worklist, placed);
      }
      SpreadingDone(df, ToSet(sites), placed);
    }

    /** The blocks that define each symbol, in any order; a block may be listed more than once. */
    method DefSites() returns (sites: map<Symbol, seq<BlockId>>)
      requires entry in blocks
      ensures forall x :: x in sites ==> sites[x] != [] && ToSet(sites[x]) == SitesOf(blocks, entry, parameters, x)
      ensures forall x, b :: DefinedIn(blocks, entry, parameters, x, b) ==> x in sites
    {
      hide Assigned, ToSet, SitesPlus, SitesOf, Distinct;
      sites := ParameterSites(blocks, entry, parameters);
      NoElements<BlockId>([]);
      var ids := AnyOrder(blocks.Keys);
      for k := 0 to |ids|
        invariant SitesUpTo(blocks, entry, parameters, ToSet(ids[..k]), sites)
      {
        PrefixGrows(ids, k);
        ghost var before := sites;
        sites := BlockSites(sites, blocks[ids[k]].body, ids[k]);
        SitesNext(blocks, entry, parameters, ToSet(ids[..k]), before, ids[k], sites);
      }
      assert ids[..|ids|] == ids;
      SitesDone(blocks, entry, parameters, sites);
    }

    /** Phi placement for all symbols, in any order. */
    method PhiNodesPlacement(df: Frontiers)
      requires entry in blocks && df.Keys == blocks.Keys
      requires forall b :: b in df ==> df[b] <= df.Keys
      requires forall b :: b in blocks ==> blocks[b].phis == []
      modifies this`blocks
      ensures exists symbols: set<Symbol> ::
                && PlacedFor(df, old(blocks), entry, parameters, symbols, blocks)
                && forall x, b :: DefinedIn(old(blocks), entry, parameters, x, b) ==> x in symbols
    {
      hide NeedsPhi, ClosedUnder, PlacedFor, SitesOf;
      var sites := DefSites();
      var order := AnyOrder(sites.Keys);
      StartPlaced(df, blocks, entry, parameters);
      for k := 0 to |order|
        invariant blocks.Keys == old(blocks).Keys
        invariant PlacedFor(df, old(blocks), entry, parameters, ToSet(order[..k]), blocks)
      {
        var x := order[k];
        PrefixGrows(order, k);
        NotBefore(order, k);
        SitesInside(old(blocks), entry, parameters, x, sites[x]);
        ghost var before := blocks;
        var placed := PlacePhisForVariable(x, sites[x], df);
        PlacedNext(df, old(blocks), entry, parameters, ToSet(order[..k]), before, x, placed);
      }
      assert order[..|order|] == order;
      assert PlacedFor(df, old(blocks), entry, parameters, sites.Keys, blocks);
    }
  }

  lemma SitesInside(blocks: Blocks, entry: BlockId, parameters: seq<Symbol>, x: Symbol, sites: seq<BlockId>)
    requires ToSet(sites) == SitesOf(blocks, entry, parameters, x)
    ensures forall b :: b in sites ==> b in blocks
  {
    assert forall b :: b in sites ==> b in ToSet(sites);
  }

  lemma StartPlaced(df: Frontiers, blocks: Blocks, entry: BlockId, parameters: seq<Symbol>)
    requires forall b :: b in blocks ==> blocks[b].phis == []
    ensures PlacedFor(df, blocks, entry, parameters, ToSet([]), blocks)
  {
  }

  lemma NothingPlaced(blocks: Blocks, x: Symbol)
    ensures WithPhis(blocks, x, {}) == blocks
  {
  }

  lemma OnePlaced(blocks: Blocks, x: Symbol, placed: set<BlockId>, c: BlockId)
    requires c in blocks && c !in placed
    ensures c in WithPhis(blocks, x, placed) && WithPhis(blocks, x, placed + {c}).Keys == blocks.Keys
    ensures var now := WithPhis(blocks, x, placed);
            now[c := now[c].(phis := [EmptyPhi(x)] + now[c].phis)] == WithPhis(blocks, x, placed + {c})
  {
  }

  lemma SpreadStep(
      df: Frontiers, sites: set<BlockId>, pending: seq<BlockId>, before: set<BlockId>, b: BlockId,
      worklist: seq<BlockId>, placed: set<BlockId>)
    requires Spreading(df, sites, pending, before) && pending != [] && pending[|pending| - 1] == b && b in df
    requires placed == before + df[b]
    requires forall c :: c in worklist <==> c in pending[..|pending| - 1] || (c in placed && c !in before)
    ensures Spreading(df, sites, worklist, placed)
  {
    hide NeedsPhi;
    assert forall c :: c in pending ==> c == b || c in pending[..|pending| - 1];
    forall c | c in placed ensures NeedsPhi(df, sites, c) {
      if c !in before {
        NeedsPhiNext(df, sites, b, c);
      }
    }
  }

  // ---------------------------------------------------------------------------
  // Definition sites
  // ---------------------------------------------------------------------------

  method AddSite(sites: map<Symbol, seq<BlockId>>, x: Symbol, b: BlockId) returns (r: map<Symbol, seq<BlockId>>)
    ensures r == sites[x := (if x in sites then sites[x] else []) + [b]]
  {
    r := sites[x := (if x in sites then sites[x] else []) + [b]];
  }

  /** `b` was added to the entries of the symbols in `s`. */
  ghost predicate SitesPlus(
      before: map<Symbol, seq<BlockId>>, s: set<Symbol>, b: BlockId, sites: map<Symbol, seq<BlockId>>)
  {
    && sites.Keys == before.Keys + s
    && (forall x :: x in before ==> before[x] != [])
    && forall x :: x in sites ==>
         sites[x] != [] &&
         ToSet(sites[x]) == (if x in before then ToSet(before[x]) else {}) + (if x in s then {b} else {})
  }

  lemma PlusNext(
      before: map<Symbol, seq<BlockId>>, s: set<Symbol>, b: BlockId, now: map<Symbol, seq<BlockId>>, x: Symbol,
      sites: map<Symbol, seq<BlockId>>)
    requires SitesPlus(before, s, b, now) && sites == now[x := (if x in now then now[x] else []) + [b]]
    ensures SitesPlus(before, s + {x}, b, sites)
  {
    forall y | y in sites
      ensures sites[y] != []
      ensures ToSet(sites[y]) == (if y in before then ToSet(before[y]) else {}) + (if y in s + {x} then {b} else {})
    {
      if y == x && x in now {
        assert ToSet(now[x] + [b]) == ToSet(now[x]) + {b};
      } else if y == x {
        assert ToSet(sites[y]) == {b};
      }
    }
  }

  lemma AssignedNext(body: seq<Instruction>, i: nat)
    requires i < |body|
    ensures Assigned(body[..i + 1]) == Assigned(body[..i]) +
            (match DestRegister(body[i]) case Some(r) => {r.symbol} case None => {})
  {
    forall x | x in Assigned(body[..i + 1])
      ensures x in Assigned(body[..i]) || (DestRegister(body[i]).Some? && x == DestRegister(body[i]).value.symbol)
    {
      var j :| 0 <= j < i + 1 && DestRegister(body[..i + 1][j]).Some?
          && DestRegister(body[..i + 1][j]).value.symbol == x;
      if j < i {
        assert DestRegister(body[..i][j]).Some?;
      }
    }
    forall x | x in Assigned(body[..i]) ensures x in Assigned(body[..i + 1]) {
      var j :| 0 <= j < i && DestRegister(body[..i][j]).Some? && DestRegister(body[..i][j]).value.symbol == x;
      assert DestRegister(body[..i + 1][j]).Some?;
    }
    if DestRegister(body[i]).Some? {
      assert DestRegister(body[..i + 1][i]).Some?;
    }
  }

  method ParameterSites(
      blocks: Blocks, entry: BlockId, parameters: seq<Symbol>)
    returns (sites: map<Symbol, seq<BlockId>>)
    ensures SitesUpTo(blocks, entry, parameters, {}, sites)
  {
    sites := map[];
    for i := 0 to |parameters|
      invariant forall x :: x in sites <==> x in parameters[..i]
      invariant forall x :: x in sites ==> sites[x] != [] && ToSet(sites[x]) == {entry}
    {
      assert parameters[..i + 1] == parameters[..i] + [parameters[i]];
      sites := AddSite(sites, parameters[i], entry);
    }
    assert parameters[..|parameters|] == parameters;
  }

  method BlockSites(before: map<Symbol, seq<BlockId>>, body: seq<Instruction>, b: BlockId)
    returns (sites: map<Symbol, seq<BlockId>>)
    requires forall x :: x in before ==> before[x] != []
    ensures SitesPlus(before, Assigned(body), b, sites)
  {
    hide Assigned, SitesPlus, ToSet;
    sites := before;
    PlusNothing(before, b, body);
    for i := 0 to |body|
      invariant SitesPlus(before, Assigned(body[..i]), b, sites)
    {
      AssignedNext(body, i);
      ghost var now := sites;
      if DestRegister(body[i]).Some? {
        sites := AddSite(sites, DestRegister(body[i]).value.symbol, b);
        PlusNext(before, Assigned(body[..i]), b, now, DestRegister(body[i]).value.symbol, sites);
      } else {
        assert Assigned(body[..i + 1]) == Assigned(body[..i]);
      }
    }
    assert body[..|body|] == body;
  }

  lemma PlusNothing(before: map<Symbol, seq<BlockId>>, b: BlockId, body: seq<Instruction>)
    requires forall x :: x in before ==> before[x] != []
    ensures SitesPlus(before, Assigned(body[..0]), b, before)
  {
  }

  lemma SitesDone(blocks: Blocks, entry: BlockId, parameters: seq<Symbol>, sites: map<Symbol, seq<BlockId>>)
    requires SitesUpTo(blocks, entry, parameters, blocks.Keys, sites) && entry in blocks
    ensures forall x :: x in sites ==> sites[x] != [] && ToSet(sites[x]) == SitesOf(blocks, entry, parameters, x)
    ensures forall x, b :: DefinedIn(blocks, entry, parameters, x, b) ==> x in sites
  {
    hide Assigned, ToSet;
    forall x, b
      ensures SiteSeen(blocks, entry, parameters, blocks.Keys, x, b) <==> DefinedIn(blocks, entry, parameters, x, b)
    {
    }
    forall x | x in sites ensures ToSet(sites[x]) == SitesOf(blocks, entry, parameters, x) {
      forall b ensures b in ToSet(sites[x]) <==> b in SitesOf(blocks, entry, parameters, x) {
        assert (x in sites && b in ToSet(sites[x])) <==> SiteSeen(blocks, entry, parameters, blocks.Keys, x, b);
      }
    }
    forall x, b | DefinedIn(blocks, entry, parameters, x, b) ensures x in sites {
      assert SiteSeen(blocks, entry, parameters, blocks.Keys, x, b);
    }
  }

  /** The sites contributed by the parameters and by the blocks in `done`. */
  ghost predicate SitesUpTo(
      blocks: Blocks, entry: BlockId, parameters: seq<Symbol>, done: set<BlockId>, sites: map<Symbol, seq<BlockId>>)
  {
    && (forall x :: x in sites ==> sites[x] != [])
    && (forall x, b :: (x in sites && b in ToSet(sites[x])) <==> SiteSeen(blocks, entry, parameters, done, x, b))
  }

  ghost predicate SiteSeen(
      blocks: Blocks, entry: BlockId, parameters: seq<Symbol>, done: set<BlockId>, x: Symbol, b: BlockId)
  {
    (b == entry && x in parameters) || (b in done && b in blocks && x in Assigned(blocks[b].body))
  }

  lemma SitesNext(
      blocks: Blocks, entry: BlockId, parameters: seq<Symbol>, done: set<BlockId>, before: map<Symbol, seq<BlockId>>,
      b: BlockId, sites: map<Symbol, seq<BlockId>>)
    requires SitesUpTo(blocks, entry, parameters, done, before) && b in blocks
    requires SitesPlus(before, Assigned(blocks[b].body), b, sites)
    ensures SitesUpTo(blocks, entry, parameters, done + {b}, sites)
  {
    hide Assigned, ToSet;
    forall x, c
      ensures (x in sites && c in ToSet(sites[x])) <==> SiteSeen(blocks, entry, parameters, done + {b}, x, c)
    {
      assert (x in before && c in ToSet(before[x])) <==> SiteSeen(blocks, entry, parameters, done, x, c);
    }
  }
}
