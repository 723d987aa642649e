/**
 * Fold and unfold instrumentation (analyzer/src/storage.rs). A storage variable is folded
 * when its invariant holds abstractly and unfolded while its value is exposed.
 * After insertion the two alternate in every block, from folded to folded.
 */
module Storage {
  import opened Sequences
  import opened Graphs
  import opened Ssa
  import opened PhiPlacement

  /** The variables that are unfolded; all others are folded. */
  type StorageState = set<Symbol>

  /** Storage variables, and whether they may change. */
  type Locations = map<Symbol, bool>

  function Mutable(locations: Locations): set<Symbol> {
    set x | x in locations && locations[x]
  }

  /** Calls during which control may come back: external ones, and internal ones to the functions in `reentrant`. */
  predicate Bracketed(inst: Instruction, reentrant: set<nat>) {
    inst.Call? && match inst.target { case External(_) => true case Internal(fn) => fn in reentrant }
  }

  // ---------------------------------------------------------------------------
  // The discipline
  // ---------------------------------------------------------------------------

  function Effect(inst: Instruction, s: StorageState): StorageState {
    match inst
    case Unfold(x) => s + {x}
    case Fold(x) => s - {x}
    case _ => s
  }

  function StateAfter(insts: seq<Instruction>): StorageState {
    if insts == [] then {} else Effect(insts[|insts| - 1], StateAfter(insts[..|insts| - 1]))
  }

  /** The instruction may stand where the variables in `s` are unfolded. */
  predicate Allowed(inst: Instruction, s: StorageState, locations: Locations, reentrant: set<nat>) {
    match inst
    case Unfold(x) => x !in s
    case Fold(x) => x in s
    case StorageLoad(_, x) => x in s
    case StorageStore(x, _) => x in s
    case Call(_, _, _) => Bracketed(inst, reentrant) ==> Mutable(locations) <= s
    case _ => true
  }

  ghost predicate AllAllowed(insts: seq<Instruction>, locations: Locations, reentrant: set<nat>) {
    forall i :: 0 <= i < |insts| ==> Allowed(insts[i], StateAfter(insts[..i]), locations, reentrant)
  }

  /** Behind instruction i come only folds until every mutable variable is folded. */
  ghost predicate FoldedBehind(insts: seq<Instruction>, i: nat, locations: Locations) {
    exists k :: i < k <= |insts| && FoldsUntil(insts, i, k) && StateAfter(insts[..k]) !! Mutable(locations)
  }

  ghost predicate FoldsUntil(insts: seq<Instruction>, i: nat, k: nat)
    requires i < k <= |insts|
  {
    forall j :: i < j < k ==> insts[j].Fold?
  }

  ghost predicate CallsFolded(insts: seq<Instruction>, locations: Locations, reentrant: set<nat>) {
    forall i :: 0 <= i < |insts| && Bracketed(insts[i], reentrant) ==> FoldedBehind(insts, i, locations)
  }

  /** Without the inserted instructions. */
  function Erased(insts: seq<Instruction>): seq<Instruction> {
    if insts == [] then []
    else
      var last := insts[|insts| - 1];
      Erased(insts[..|insts| - 1]) + if last.Fold? || last.Unfold? then [] else [last]
  }

  /** The whole discipline of a block, which starts with everything folded. */
  ghost predicate Disciplined(insts: seq<Instruction>, locations: Locations, reentrant: set<nat>) {
    AllAllowed(insts, locations, reentrant) && CallsFolded(insts, locations, reentrant) && StateAfter(insts) == {}
  }

  lemma StateNext(insts: seq<Instruction>, inst: Instruction)
    ensures StateAfter(insts + [inst]) == Effect(inst, StateAfter(insts))
    ensures Erased(insts + [inst]) == Erased(insts) + if inst.Fold? || inst.Unfold? then [] else [inst]
  {
    assert (insts + [inst])[..|insts|] == insts;
  }

  lemma AllowedNext(insts: seq<Instruction>, inst: Instruction, locations: Locations, reentrant: set<nat>)
    requires AllAllowed(insts, locations, reentrant) && Allowed(inst, StateAfter(insts), locations, reentrant)
    ensures AllAllowed(insts + [inst], locations, reentrant)
  {
    hide Allowed, StateAfter;
    var longer := insts + [inst];
    forall i | 0 <= i < |longer| ensures Allowed(longer[i], StateAfter(longer[..i]), locations, reentrant) {
      if i < |insts| {
        assert longer[..i] == insts[..i];
      } else {
        assert longer[..i] == insts;
      }
    }
  }

  lemma StillFolded(insts: seq<Instruction>, inst: Instruction, i: nat, locations: Locations)
    requires i < |insts| && FoldedBehind(insts, i, locations)
    ensures FoldedBehind(insts + [inst], i, locations)
  {
    hide StateAfter;
    var k :| i < k <= |insts| && FoldsUntil(insts, i, k) && StateAfter(insts[..k]) !! Mutable(locations);
    assert (insts + [inst])[..k] == insts[..k];
    assert FoldsUntil(insts + [inst], i, k);
  }

  lemma FoldedNext(insts: seq<Instruction>, inst: Instruction, locations: Locations, reentrant: set<nat>)
    requires CallsFolded(insts, locations, reentrant) && !Bracketed(inst, reentrant)
    ensures CallsFolded(insts + [inst], locations, reentrant)
  {
    hide FoldedBehind, Bracketed;
    var longer := insts + [inst];
    forall i | 0 <= i < |longer| && Bracketed(longer[i], reentrant) ensures FoldedBehind(longer, i, locations) {
      assert longer[i] == insts[i];
      StillFolded(insts, inst, i, locations);
    }
  }

  // ---------------------------------------------------------------------------
  // Where folds and unfolds stand
  // ---------------------------------------------------------------------------

  predicate Accesses(inst: Instruction, x: Symbol) {
    (inst.StorageLoad? || inst.StorageStore?) && inst.storageVar == x
  }

  /** Between a bracketed call and instruction i there are only folds. */
  ghost predicate InFoldRun(insts: seq<Instruction>, i: nat, reentrant: set<nat>)
    requires i < |insts|
  {
    exists k :: 0 <= k < i && Bracketed(insts[k], reentrant) && forall j :: k < j < i ==> insts[j].Fold?
  }

  /** Between instruction i and a bracketed call there are only unfolds. */
  ghost predicate InUnfoldRun(insts: seq<Instruction>, i: nat, reentrant: set<nat>) {
    exists k :: i < k < |insts| && Bracketed(insts[k], reentrant) && forall j :: i < j < k ==> insts[j].Unfold?
  }

  ghost predicate OnlyFoldsFrom(insts: seq<Instruction>, i: nat) {
    forall j :: i <= j < |insts| ==> insts[j].Fold?
  }

  /** A variable is folded directly behind a store to it, or behind a bracketed call if it may change. */
  ghost predicate FoldPlaced(insts: seq<Instruction>, i: nat, locations: Locations, reentrant: set<nat>)
    requires i < |insts|
  {
    insts[i].Fold? ==>
      || (i > 0 && insts[i - 1].StorageStore? && insts[i - 1].storageVar == insts[i].storageVar)
      || (insts[i].storageVar in Mutable(locations) && InFoldRun(insts, i, reentrant))
  }

  /** It is unfolded directly in front of an access to it, or in front of a bracketed call if it may change. */
  ghost predicate UnfoldPlaced(insts: seq<Instruction>, i: nat, locations: Locations, reentrant: set<nat>)
    requires i < |insts|
  {
    insts[i].Unfold? ==>
      || (i + 1 < |insts| && Accesses(insts[i + 1], insts[i].storageVar))
      || (insts[i].storageVar in Mutable(locations) && InUnfoldRun(insts, i, reentrant))
  }

  ghost predicate StoreFolded(insts: seq<Instruction>, i: nat)
    requires i < |insts|
  {
    insts[i].StorageStore? ==> i + 1 < |insts| && insts[i + 1] == Fold(insts[i].storageVar)
  }

  ghost predicate PlacedAt(insts: seq<Instruction>, i: nat, locations: Locations, reentrant: set<nat>)
    requires i < |insts|
  {
    FoldPlaced(insts, i, locations, reentrant) && UnfoldPlaced(insts, i, locations, reentrant) && StoreFolded(insts, i)
  }

  /** Before the end of the block is reached: everything inserted has its reason. */
  ghost predicate Settled(insts: seq<Instruction>, locations: Locations, reentrant: set<nat>) {
    forall i :: 0 <= i < |insts| ==> PlacedAt(insts, i, locations, reentrant)
  }

  /** In the finished block: the same, but for the folds at its end. */
  ghost predicate WellPlaced(insts: seq<Instruction>, locations: Locations, reentrant: set<nat>) {
    forall i :: 0 <= i < |insts| ==> PlacedAt(insts, i, locations, reentrant) || OnlyFoldsFrom(insts, i)
  }

  lemma StillPlaced(
      insts: seq<Instruction>, longer: seq<Instruction>, i: nat, locations: Locations, reentrant: set<nat>)
    requires insts <= longer && i < |insts| && PlacedAt(insts, i, locations, reentrant)
    ensures PlacedAt(longer, i, locations, reentrant)
  {
    hide Bracketed, Mutable;
    if insts[i].Fold? && InFoldRun(insts, i, reentrant) {
      var k :| 0 <= k < i && Bracketed(insts[k], reentrant) && forall j :: k < j < i ==> insts[j].Fold?;
      assert Bracketed(longer[k], reentrant) && forall j :: k < j < i ==> longer[j].Fold?;
    }
    if insts[i].Unfold? && InUnfoldRun(insts, i, reentrant) {
      var k :| i < k < |insts| && Bracketed(insts[k], reentrant) && forall j :: i < j < k ==> insts[j].Unfold?;
      assert Bracketed(longer[k], reentrant) && forall j :: i < j < k ==> longer[j].Unfold?;
    }
  }

  lemma SettledMore(insts: seq<Instruction>, longer: seq<Instruction>, locations: Locations, reentrant: set<nat>)
    requires Settled(insts, locations, reentrant) && insts <= longer
    requires forall i :: |insts| <= i < |longer| ==> PlacedAt(longer, i, locations, reentrant)
    ensures Settled(longer, locations, reentrant)
  {
    hide PlacedAt;
    forall i | 0 <= i < |longer| ensures PlacedAt(longer, i, locations, reentrant) {
      if i < |insts| {
        StillPlaced(insts, longer, i, locations, reentrant);
      }
    }
  }

  /** In front of an access the variable is unfolded if it was folded; behind a store it is folded. */
  function AroundAccess(inst: Instruction, x: Symbol, folded: bool): seq<Instruction> {
    (if folded then [Unfold(x)] else []) + [inst] + if inst.StorageStore? then [Fold(x)] else []
  }

  lemma SettledAccess(
      insts: seq<Instruction>, inst: Instruction, x: Symbol, folded: bool, locations: Locations, reentrant: set<nat>)
    requires Settled(insts, locations, reentrant) && Accesses(inst, x)
    ensures Settled(insts + AroundAccess(inst, x, folded), locations, reentrant)
  {
    hide InFoldRun, InUnfoldRun, Mutable;
    var longer, n := insts + AroundAccess(inst, x, folded), |insts|;
    var at := if folded then n + 1 else n;
    assert longer[at] == inst && (folded ==> longer[n] == Unfold(x));
    forall i | n <= i < |longer| ensures PlacedAt(longer, i, locations, reentrant) {
    }
    SettledMore(insts, longer, locations, reentrant);
  }

  lemma SettledPlain(insts: seq<Instruction>, inst: Instruction, locations: Locations, reentrant: set<nat>)
    requires Settled(insts, locations, reentrant) && !inst.Fold? && !inst.Unfold? && !inst.StorageStore?
    ensures Settled(insts + [inst], locations, reentrant)
  {
    var longer := insts + [inst];
    assert PlacedAt(longer, |insts|, locations, reentrant);
    SettledMore(insts, longer, locations, reentrant);
  }

  /** From index `from` on there are folds, or unfolds, of variables that may change. */
  ghost predicate FoldsMutable(insts: seq<Instruction>, from: nat, locations: Locations) {
    forall j :: from <= j < |insts| ==> insts[j].Fold? && insts[j].storageVar in Mutable(locations)
  }

  ghost predicate UnfoldsMutable(insts: seq<Instruction>, from: nat, locations: Locations) {
    forall j :: from <= j < |insts| ==> insts[j].Unfold? && insts[j].storageVar in Mutable(locations)
  }

  lemma SettledCall(
      insts: seq<Instruction>, unfolded: seq<Instruction>, inst: Instruction, folded: seq<Instruction>,
      locations: Locations, reentrant: set<nat>)
    requires Settled(insts, locations, reentrant) && Bracketed(inst, reentrant)
    requires insts <= unfolded && UnfoldsMutable(unfolded, |insts|, locations)
    requires unfolded + [inst] <= folded && FoldsMutable(folded, |unfolded| + 1, locations)
    ensures Settled(folded, locations, reentrant)
  {
    hide Mutable;
    var call := |unfolded|;
    assert folded[call] == inst && !inst.Fold? && !inst.Unfold? && !inst.StorageStore?;
    forall i | |insts| <= i < |folded| ensures PlacedAt(folded, i, locations, reentrant) {
      if i < call {
        assert folded[i] == unfolded[i];
        assert forall j :: i < j < call ==> folded[j] == unfolded[j];
        assert InUnfoldRun(folded, i, reentrant);
      } else if i > call {
        assert InFoldRun(folded, i, reentrant);
      }
    }
    assert insts <= folded by {
      assert forall j :: 0 <= j < |insts| ==> folded[j] == unfolded[j];
    }
    SettledMore(insts, folded, locations, reentrant);
  }

  lemma SettledEnd(insts: seq<Instruction>, longer: seq<Instruction>, locations: Locations, reentrant: set<nat>)
    requires Settled(insts, locations, reentrant) && insts <= longer && OnlyFoldsFrom(longer, |insts|)
    ensures WellPlaced(longer, locations, reentrant)
  {
    hide PlacedAt;
    forall i | 0 <= i < |longer| ensures PlacedAt(longer, i, locations, reentrant) || OnlyFoldsFrom(longer, i) {
      if i < |insts| {
        StillPlaced(insts, longer, i, locations, reentrant);
      }
    }
  }

  // ---------------------------------------------------------------------------
  // Insertion
  // ---------------------------------------------------------------------------

  /** What the insertion has built so far: it obeys the discipline and erases to the part already treated. */
  ghost predicate Built(
      done: seq<Instruction>, new_: seq<Instruction>, s: StorageState, locations: Locations, reentrant: set<nat>)
  {
    && AllAllowed(new_, locations, reentrant) && CallsFolded(new_, locations, reentrant)
    && StateAfter(new_) == s && Erased(new_) == done && s <= locations.Keys
  }

  lemma BuiltUnfold(
      done: seq<Instruction>, new_: seq<Instruction>, s: StorageState, locations: Locations, reentrant: set<nat>,
      x: Symbol)
    requires Built(done, new_, s, locations, reentrant) && x in locations && x !in s
    ensures Built(done, new_ + [Unfold(x)], s + {x}, locations, reentrant)
  {
    hide StateAfter, Erased, AllAllowed, CallsFolded;
    StateNext(new_, Unfold(x));
    AllowedNext(new_, Unfold(x), locations, reentrant);
    FoldedNext(new_, Unfold(x), locations, reentrant);
  }

  lemma BuiltFold(
      done: seq<Instruction>, new_: seq<Instruction>, s: StorageState, locations: Locations, reentrant: set<nat>,
      x: Symbol)
    requires Built(done, new_, s, locations, reentrant) && x in s
    ensures Built(done, new_ + [Fold(x)], s - {x}, locations, reentrant)
  {
    hide StateAfter, Erased, AllAllowed, CallsFolded;
    StateNext(new_, Fold(x));
    AllowedNext(new_, Fold(x), locations, reentrant);
    FoldedNext(new_, Fold(x), locations, reentrant);
  }

  lemma BuiltPlain(
      done: seq<Instruction>, new_: seq<Instruction>, s: StorageState, locations: Locations, reentrant: set<nat>,
      inst: Instruction)
    requires Built(done, new_, s, locations, reentrant) && !inst.Fold? && !inst.Unfold?
    requires Allowed(inst, s, locations, reentrant) && !Bracketed(inst, reentrant)
    ensures Built(done + [inst], new_ + [inst], s, locations, reentrant)
  {
    hide StateAfter, Erased, AllAllowed, CallsFolded;
    StateNext(new_, inst);
    AllowedNext(new_, inst, locations, reentrant);
    FoldedNext(new_, inst, locations, reentrant);
  }

  method UnfoldVariable(
      x: Symbol, new_: seq<Instruction>, s: StorageState, locations: Locations, ghost done: seq<Instruction>,
      ghost reentrant: set<nat>)
    returns (new': seq<Instruction>, s': StorageState)
    requires Built(done, new_, s, locations, reentrant) && x in locations
    ensures Built(done, new', s', locations, reentrant) && s' == s + {x}
    ensures new' == if x in s then new_ else new_ + [Unfold(x)]
  {
    hide Built;
    new', s' := new_, s;
    if x !in s {
      BuiltUnfold(done, new_, s, locations, reentrant, x);
      new' := new_ + [Unfold(x)];
    }
    s' := s + {x};
    if x in s {
      assert s' == s;
    }
  }

  /** Before a bracketed call: unfold every mutable variable that is folded, in any order. */
  method UnfoldMutable(
      new_: seq<Instruction>, s: StorageState, locations: Locations, ghost done: seq<Instruction>,
      ghost reentrant: set<nat>)
    returns (new': seq<Instruction>, s': StorageState)
    requires Built(done, new_, s, locations, reentrant)
    ensures Built(done, new', s', locations, reentrant) && s' == s + Mutable(locations)
    ensures new_ <= new' && UnfoldsMutable(new', |new_|, locations)
  {
    hide Built, Distinct;
    new', s' := new_, s;
    var order := AnyOrder(locations.Keys);
    for k := 0 to |order|
      invariant Built(done, new', s', locations, reentrant)
      invariant s' == s + (ToSet(order[..k]) * Mutable(locations))
      invariant new_ <= new' && UnfoldsMutable(new', |new_|, locations)
    {
      PrefixGrows(order, k);
      if locations[order[k]] && order[k] !in s' {
        new', s' := UnfoldVariable(order[k], new', s', locations, done, reentrant);
      }
    }
    assert order[..|order|] == order;
  }

  /**
   * Behind a call: fold every mutable variable that is unfolded, in any order. All
   * that comes behind the call are folds.
   */
  method FoldMutable(
      new_: seq<Instruction>, s: StorageState, locations: Locations, ghost done: seq<Instruction>,
      ghost reentrant: set<nat>,
      ghost call: nat)
    returns (new': seq<Instruction>, s': StorageState)
    requires BuiltButCall(done, new_, s, locations, reentrant, call) && |new_| == call + 1
    ensures BuiltButCall(done, new', s', locations, reentrant, call)
    ensures s' == s - Mutable(locations) && FoldsUntil(new', call, |new'|)
    ensures new_ <= new' && FoldsMutable(new', call + 1, locations)
  {
    hide BuiltButCall, Distinct;
    BuiltLength(done, new_, s, locations, reentrant, call);
    new', s' := new_, s;
    var order := AnyOrder(locations.Keys);
    for k := 0 to |order|
      invariant BuiltButCall(done, new', s', locations, reentrant, call) && call < |new'|
          && FoldsUntil(new', call, |new'|)
      invariant s' == s - (ToSet(order[..k]) * Mutable(locations))
      invariant new_ <= new' && FoldsMutable(new', call + 1, locations)
    {
      PrefixGrows(order, k);
      if locations[order[k]] && order[k] in s' {
        ButCallFold(done, new', s', locations, reentrant, call, order[k]);
        new', s' := new' + [Fold(order[k])], s' - {order[k]};
      }
    }
    assert order[..|order|] == order;
  }

  /** Built, except that the folds behind the call at index `call` are still being added. */
  ghost predicate BuiltButCall(
      done: seq<Instruction>, new_: seq<Instruction>, s: StorageState, locations: Locations, reentrant: set<nat>,
      call: nat)
  {
    && call < |new_| && Bracketed(new_[call], reentrant)
    && AllAllowed(new_, locations, reentrant) && CallsFolded(new_[..call], locations, reentrant)
    && StateAfter(new_) == s && Erased(new_) == done && s <= locations.Keys
  }

  lemma BuiltLength(
      done: seq<Instruction>, new_: seq<Instruction>, s: StorageState, locations: Locations, reentrant: set<nat>,
      call: nat)
    requires BuiltButCall(done, new_, s, locations, reentrant, call)
    ensures call < |new_|
  {
  }

  lemma ButCallStarts(
      done: seq<Instruction>, new_: seq<Instruction>, s: StorageState, locations: Locations, reentrant: set<nat>,
      inst: Instruction)
    requires Built(done, new_, s, locations, reentrant) && Bracketed(inst, reentrant) && Mutable(locations) <= s
    ensures BuiltButCall(done + [inst], new_ + [inst], s, locations, reentrant, |new_|)
  {
    hide StateAfter, Erased, AllAllowed, CallsFolded;
    StateNext(new_, inst);
    AllowedNext(new_, inst, locations, reentrant);
    assert (new_ + [inst])[..|new_|] == new_;
  }

  lemma ButCallFold(
      done: seq<Instruction>, new_: seq<Instruction>, s: StorageState, locations: Locations, reentrant: set<nat>,
      call: nat, x: Symbol)
    requires BuiltButCall(done, new_, s, locations, reentrant, call) && x in s
    ensures BuiltButCall(done, new_ + [Fold(x)], s - {x}, locations, reentrant, call)
  {
    hide StateAfter, Erased, AllAllowed, CallsFolded, Bracketed;
    StateNext(new_, Fold(x));
    AllowedNext(new_, Fold(x), locations, reentrant);
    assert (new_ + [Fold(x)])[..call] == new_[..call];
  }

  lemma ButCallEnds(
      done: seq<Instruction>, new_: seq<Instruction>, s: StorageState, locations: Locations, reentrant: set<nat>,
      call: nat)
    requires BuiltButCall(done, new_, s, locations, reentrant, call)
    requires FoldsUntil(new_, call, |new_|) && s !! Mutable(locations)
    ensures Built(done, new_, s, locations, reentrant)
  {
    hide StateAfter, Erased, AllAllowed;
    assert new_[..|new_|] == new_;
    assert forall j :: call < j < |new_| ==> !Bracketed(new_[j], reentrant);
    forall i | 0 <= i < |new_| && Bracketed(new_[i], reentrant) ensures FoldedBehind(new_, i, locations) {
      if i < call {
        assert Bracketed(new_[..call][i], reentrant);
        var k :| i < k <= call && FoldsUntil(new_[..call], i, k) && StateAfter(new_[..call][..k]) !! Mutable(locations);
        assert new_[..call][..k] == new_[..k];
        assert forall j :: i < j < k ==> new_[..call][j] == new_[j];
        assert FoldsUntil(new_, i, k);
      }
    }
  }

  /** A call during which control may come back, in brackets. */
  method InsertCall(
      inst: Instruction, new_: seq<Instruction>, s: StorageState, locations: Locations, ghost done: seq<Instruction>,
      ghost reentrant: set<nat>)
    returns (new': seq<Instruction>, s': StorageState)
    requires Built(done, new_, s, locations, reentrant) && Bracketed(inst, reentrant)
    requires Settled(new_, locations, reentrant)
    ensures Built(done + [inst], new', s', locations, reentrant) && Settled(new', locations, reentrant)
  {
    hide Built, BuiltButCall, Settled, UnfoldsMutable, FoldsMutable;
    new', s' := UnfoldMutable(new_, s, locations, done, reentrant);
    ghost var call, unfolded := |new'|, new';
    ButCallStarts(done, new', s', locations, reentrant, inst);
    new' := new' + [inst];
    new', s' := FoldMutable(new', s', locations, done + [inst], reentrant, call);
    ButCallEnds(done + [inst], new', s', locations, reentrant, call);
    SettledCall(new_, unfolded, inst, new', locations, reentrant);
  }

  method InsertOne(
      inst: Instruction, new_: seq<Instruction>, s: StorageState, locations: Locations, reentrant: set<nat>,
      ghost done: seq<Instruction>)
    returns (new': seq<Instruction>, s': StorageState)
    requires Built(done, new_, s, locations, reentrant) && !inst.Fold? && !inst.Unfold?
    requires inst.StorageLoad? || inst.StorageStore? ==> inst.storageVar in locations
    requires Settled(new_, locations, reentrant)
    ensures Built(done + [inst], new', s', locations, reentrant) && Settled(new', locations, reentrant)
  {
    hide Built, Settled;
    new', s' := new_, s;
    match inst {
      case StorageLoad(_, x) =>
        new', s' := UnfoldVariable(x, new', s', locations, done, reentrant);
        BuiltPlain(done, new', s', locations, reentrant, inst);
        new' := new' + [inst];
        SettledAccess(new_, inst, x, x !in s, locations, reentrant);
        assert new' == new_ + AroundAccess(inst, x, x !in s);
      case StorageStore(x, _) =>
        new', s' := UnfoldVariable(x, new', s', locations, done, reentrant);
        BuiltPlain(done, new', s', locations, reentrant, inst);
        new' := new' + [inst];
        BuiltFold(done + [inst], new', s', locations, reentrant, x);
        new', s' := new' + [Fold(x)], s' - {x};
        SettledAccess(new_, inst, x, x !in s, locations, reentrant);
        assert new' == new_ + AroundAccess(inst, x, x !in s);
      case Call(_, _, _) =>
        if Bracketed(inst, reentrant) {
          new', s' := InsertCall(inst, new', s', locations, done, reentrant);
        } else {
          BuiltPlain(done, new', s', locations, reentrant, inst);
          SettledPlain(new', inst, locations, reentrant);
          new' := new' + [inst];
        }
      case _ =>
        BuiltPlain(done, new', s', locations, reentrant, inst);
        SettledPlain(new', inst, locations, reentrant);
        new' := new' + [inst];
    }
  }

  /** At the end of a block: fold what is still unfolded, in any order. */
  method FoldRemaining(
      new_: seq<Instruction>, s: StorageState, locations: Locations, ghost done: seq<Instruction>,
      ghost reentrant: set<nat>)
    returns (new': seq<Instruction>)
    requires Built(done, new_, s, locations, reentrant)
    ensures Built(done, new', {}, locations, reentrant)
    ensures new_ <= new' && OnlyFoldsFrom(new', |new_|)
  {
    hide Built, Distinct;
    new' := new_;
    BuiltInside(done, new_, s, locations, reentrant);
    ghost var left := s;
    var order := AnyOrder(locations.Keys);
    for k := 0 to |order|
      invariant Built(done, new', left, locations, reentrant) && left == s - ToSet(order[..k])
      invariant new_ <= new' && OnlyFoldsFrom(new', |new_|)
    {
      PrefixGrows(order, k);
      NotBefore(order, k);
      if order[k] in s {
        BuiltFold(done, new', left, locations, reentrant, order[k]);
        new' := new' + [Fold(order[k])];
      }
      left := left - {order[k]};
      if order[k] !in s {
        assert left == s - ToSet(order[..k]);
      }
    }
    assert order[..|order|] == order;
    assert left == {};
  }

  lemma BuiltInside(
      done: seq<Instruction>, new_: seq<Instruction>, s: StorageState, locations: Locations, reentrant: set<nat>)
    requires Built(done, new_, s, locations, reentrant)
    ensures s <= locations.Keys
  {
  }

  /** The instructions of a block before insertion: no folds yet, and every access is to a known variable. */
  ghost predicate Plain(insts: seq<Instruction>, locations: Locations) {
    forall i :: 0 <= i < |insts| ==>
      && !insts[i].Fold? && !insts[i].Unfold?
      && (insts[i].StorageLoad? || insts[i].StorageStore? ==> insts[i].storageVar in locations)
  }

  /**
   * One block: the discipline holds, erasing what was inserted gives back the block,
   * and every fold and unfold stands at an access, at a bracketed call or at the end.
   */
  method InsertIntoBlock(insts: seq<Instruction>, entry: StorageState, locations: Locations, reentrant: set<nat>)
    returns (r: seq<Instruction>)
    requires Plain(insts, locations) && entry == {}
    ensures Disciplined(r, locations, reentrant) && Erased(r) == insts && WellPlaced(r, locations, reentrant)
  {
    hide Built, Settled, WellPlaced;
    var s: StorageState := entry;
    r := [];
    BuiltNothing(locations, reentrant);
    for i := 0 to |insts|
      invariant Built(insts[..i], r, s, locations, reentrant) && Settled(r, locations, reentrant)
    {
      assert insts[..i + 1] == insts[..i] + [insts[i]];
      r, s := InsertOne(insts[i], r, s, locations, reentrant, insts[..i]);
    }
    assert insts[..|insts|] == insts;
    ghost var settled := r;
    r := FoldRemaining(r, s, locations, insts, reentrant);
    SettledEnd(settled, r, locations, reentrant);
    BuiltIsDisciplined(insts, r, locations, reentrant);
  }

  lemma BuiltNothing(locations: Locations, reentrant: set<nat>)
    ensures Built([], [], {}, locations, reentrant) && Settled([], locations, reentrant)
  {
  }

  lemma BuiltIsDisciplined(insts: seq<Instruction>, r: seq<Instruction>, locations: Locations, reentrant: set<nat>)
    requires Built(insts, r, {}, locations, reentrant)
    ensures Disciplined(r, locations, reentrant) && Erased(r) == insts
  {
  }

  // ---------------------------------------------------------------------------
  // States at block boundaries
  // ---------------------------------------------------------------------------

  /** The transfer function of the state analysis: stores and calls fold, loads unfold. */
  function Transfer(s: StorageState, insts: seq<Instruction>, external: set<nat>): StorageState {
    if insts == [] then s
    else
      var t := Transfer(s, insts[..|insts| - 1], external);
      match insts[|insts| - 1] {
        case StorageLoad(_, x) => t + {x}
        case StorageStore(x, _) => t - {x}
        case Call(_, External(_), _) => {}
        case Call(_, Internal(fn), _) => if fn in external then {} else t
        case _ => t
      }
  }

  /** Behind a store to it or a call that leads out of the contract a variable counts as folded. */
  predicate FoldsIt(inst: Instruction, x: Symbol, external: set<nat>) {
    (inst.StorageStore? && inst.storageVar == x) || Bracketed(inst, external)
  }

  predicate LoadsIt(inst: Instruction, x: Symbol) {
    inst.StorageLoad? && inst.storageVar == x
  }

  ghost predicate LeftUnfolded(insts: seq<Instruction>, x: Symbol, external: set<nat>) {
    exists i :: 0 <= i < |insts| && LoadsIt(insts[i], x) && NothingFolds(insts, i, x, external)
  }

  ghost predicate NothingFolds(insts: seq<Instruction>, i: nat, x: Symbol, external: set<nat>) {
    forall j :: i < j < |insts| ==> !FoldsIt(insts[j], x, external)
  }

  /** A block leaves unfolded what it loads and does not fold afterwards. */
  lemma {:induction false} TransferIs(insts: seq<Instruction>, x: Symbol, external: set<nat>)
    ensures x in Transfer({}, insts, external) <==> LeftUnfolded(insts, x, external)
  {
    if insts != [] {
      var n := |insts| - 1;
      var init, last := insts[..n], insts[n];
      TransferIs(init, x, external);
      if LoadsIt(last, x) {
        assert NothingFolds(insts, n, x, external);
      } else if !FoldsIt(last, x, external) {
        if i :| 0 <= i < n && LoadsIt(init[i], x) && NothingFolds(init, i, x, external) {
          assert forall j :: i < j < n ==> insts[j] == init[j];
          assert LoadsIt(insts[i], x) && NothingFolds(insts, i, x, external);
        }
      } else {
        assert forall i :: 0 <= i < n ==> !NothingFolds(insts, i, x, external);
      }
      if i :| 0 <= i < n && LoadsIt(insts[i], x) && NothingFolds(insts, i, x, external) {
        assert forall j :: i < j < n ==> init[j] == insts[j];
        assert LoadsIt(init[i], x) && NothingFolds(init, i, x, external);
      }
    }
  }

  method ApplyTransfer(s: StorageState, insts: seq<Instruction>, external: set<nat>) returns (r: StorageState)
    ensures r == Transfer(s, insts, external)
  {
    r := s;
    for i := 0 to |insts|
      invariant r == Transfer(s, insts[..i], external)
    {
      assert insts[..i + 1][..i] == insts[..i];
      match insts[i] {
        case StorageLoad(_, x) => r := r + {x};
        case StorageStore(x, _) => r := r - {x};
        case Call(_, target, _) =>
          match target {
            case External(_) => r := {};
            case Internal(fn) =>
              if fn in external {
                r := {};
              }
          }
        case _ =>
      }
    }
    assert insts[..|insts|] == insts;
  }

  /** Blocks whose exit state is not what the transfer function makes of the empty state. */
  ghost function Unsettled(blocks: Blocks, exits: map<BlockId, StorageState>, external: set<nat>): set<BlockId> {
    set b | b in blocks && b in exits && exits[b] != Transfer({}, blocks[b].body, external)
  }

  /** The edges along which a changed state is passed on: those of blocks that end with something unfolded. */
  ghost function Carrying(blocks: Blocks, entry: BlockId, external: set<nat>): Graph {
    Graph(map b | b in blocks :: if Transfer({}, blocks[b].body, external) != {} then blocks[b].successors else [],
          map[], entry)
  }

  /** The blocks in `done` are settled, the others untouched, and what changed was passed on. */
  ghost predicate Passed(
      blocks: Blocks, entry: BlockId, external: set<nat>, exits: map<BlockId, StorageState>, done: set<BlockId>,
      worklist: seq<BlockId>)
    requires exits.Keys == blocks.Keys
  {
    var g := Carrying(blocks, entry, external);
    && done <= blocks.Keys && (entry in done || entry in worklist)
    && (forall b :: b in worklist ==> b in blocks)
    && (forall b :: b in done || b in worklist ==> Reaches(g, entry, b))
    && (forall a, b {:trigger Edge(g, a, b)} :: a in done && Edge(g, a, b) ==> b in done || b in worklist)
    && forall b :: b in blocks ==> exits[b] == if b in done then Transfer({}, blocks[b].body, external) else {}
  }

  lemma PassedStarts(blocks: Blocks, entry: BlockId, external: set<nat>, exits: map<BlockId, StorageState>)
    requires entry in blocks && exits == map b | b in blocks :: {}
    ensures Passed(blocks, entry, external, exits, {}, [entry])
  {
    ReachesItself(Carrying(blocks, entry, external), entry);
  }

  /** A settled block is taken off the list: its state does not change again. */
  lemma PassedAgain(
      blocks: Blocks, entry: BlockId, external: set<nat>, exits: map<BlockId, StorageState>, done: set<BlockId>,
      worklist: seq<BlockId>)
    requires exits.Keys == blocks.Keys && Passed(blocks, entry, external, exits, done, worklist) && worklist != []
    requires var b := worklist[|worklist| - 1];
             b in blocks && exits[b] == Transfer({}, blocks[b].body, external)
    ensures Passed(blocks, entry, external, exits, done + {worklist[|worklist| - 1]}, worklist[..|worklist| - 1])
  {
    hide Transfer, Reaches;
    var n := |worklist| - 1;
    var g, b := Carrying(blocks, entry, external), worklist[n];
    assert forall x :: x in worklist <==> x in worklist[..n] || x == b by {
      assert worklist == worklist[..n] + [b];
    }
    if b !in done {
      assert exits[b] == {} && g.succ[b] == [];
    }
  }

  /** A block that changes is settled, and its successors are listed. */
  lemma PassedOn(
      blocks: Blocks, entry: BlockId, external: set<nat>, exits: map<BlockId, StorageState>, done: set<BlockId>,
      worklist: seq<BlockId>)
    requires exits.Keys == blocks.Keys && Passed(blocks, entry, external, exits, done, worklist) && worklist != []
    requires forall b, c :: b in blocks && c in blocks[b].successors ==> c in blocks
    requires var b := worklist[|worklist| - 1];
             b in blocks && exits[b] != Transfer({}, blocks[b].body, external)
    ensures var b := worklist[|worklist| - 1];
            Passed(blocks, entry, external, exits[b := Transfer({}, blocks[b].body, external)], done + {b},
                   worklist[..|worklist| - 1] + blocks[b].successors)
  {
    hide Transfer, Reaches;
    var n := |worklist| - 1;
    var g, b := Carrying(blocks, entry, external), worklist[n];
    assert forall x :: x in worklist <==> x in worklist[..n] || x == b by {
      assert worklist == worklist[..n] + [b];
    }
    forall c | c in blocks[b].successors ensures Reaches(g, entry, c) {
      assert Edge(g, b, c);
      ReachesNext(g, entry, b, c);
    }
  }

  lemma ReachesNext(g: Graph, a: Node, b: Node, c: Node)
    requires Reaches(g, a, b) && Edge(g, b, c) && c in g.succ
    ensures Reaches(g, a, c)
  {
    var p :| PathBetween(g, p, a, b);
    assert PathBetween(g, p + [c], a, c);
  }

  lemma PassedEnds(
      blocks: Blocks, entry: BlockId, external: set<nat>, exits: map<BlockId, StorageState>, done: set<BlockId>)
    requires exits.Keys == blocks.Keys && Passed(blocks, entry, external, exits, done, [])
    ensures forall b :: b in blocks ==>
              exits[b] == if Reaches(Carrying(blocks, entry, external), entry, b)
                          then Transfer({}, blocks[b].body, external) else {}
  {
    hide Transfer, Reaches;
    ClosedContainsReached(Carrying(blocks, entry, external), done, entry);
  }

  /**
   * The state analysis starts every block from the empty state and only intersects,
   * so every entry state stays empty, and the worklist ends because an exit state
   * changes at most once: from empty to what the block makes of it, if the block is
   * reached through blocks that leave something unfolded.
   */
  method ComputeStorageStates(blocks: Blocks, entry: BlockId, external: set<nat>)
    returns (entries: map<BlockId, StorageState>, exits: map<BlockId, StorageState>)
    requires entry in blocks
    requires forall b, c :: b in blocks && (c in blocks[b].successors || c in blocks[b].predecessors) ==> c in blocks
    ensures entries.Keys == blocks.Keys && exits.Keys == blocks.Keys
    ensures forall b :: b in blocks ==> entries[b] == {}
    ensures forall b :: b in blocks ==>
              exits[b] == if Reaches(Carrying(blocks, entry, external), entry, b)
                          then Transfer({}, blocks[b].body, external) else {}
  {
    hide Transfer, Passed, Carrying, Reaches, Unsettled;
    entries := map b | b in blocks :: {};
    exits := map b | b in blocks :: {};
    var worklist := [entry];
    ghost var done: set<BlockId> := {};
    PassedStarts(blocks, entry, external, exits);
    while worklist != []
      invariant exits.Keys == blocks.Keys && Passed(blocks, entry, external, exits, done, worklist)
      invariant entries.Keys == blocks.Keys && exits.Keys == blocks.Keys && forall b :: b in worklist ==> b in blocks
      invariant forall b :: b in blocks ==> entries[b] == {}
      decreases Unsettled(blocks, exits, external), |worklist|
    {
      var b := worklist[|worklist| - 1];
      ghost var before := worklist;
      worklist := worklist[..|worklist| - 1];
      var state: StorageState := {};
      for k := 0 to |blocks[b].predecessors|
        invariant state == {}
      {
        state := state * exits[blocks[b].predecessors[k]];
      }
      var out := ApplyTransfer(state, blocks[b].body, external);
      entries := entries[b := state];
      if exits[b] != out {
        SettlesOne(blocks, exits, external, b, out);
        PassedOn(blocks, entry, external, exits, done, before);
        exits := exits[b := out];
        worklist := worklist + blocks[b].successors;
      } else {
        PassedAgain(blocks, entry, external, exits, done, before);
      }
      done := done + {b};
    }
    PassedEnds(blocks, entry, external, exits, done);
  }

  lemma SettlesOne(blocks: Blocks, exits: map<BlockId, StorageState>, external: set<nat>, b: BlockId, out: StorageState)
    requires b in blocks && b in exits && exits[b] != out && out == Transfer({}, blocks[b].body, external)
    ensures Unsettled(blocks, exits[b := out], external) < Unsettled(blocks, exits, external)
  {
    hide Transfer;
    assert b in Unsettled(blocks, exits, external) && b !in Unsettled(blocks, exits[b := out], external);
  }

  // ---------------------------------------------------------------------------
  // A function
  // ---------------------------------------------------------------------------

  /**
   * Every block obeys the discipline, erases to the old block and is folded where it should
   * be; nothing else changed.
   */
  ghost predicate Instrumented(blocks0: Blocks, blocks1: Blocks, locations: Locations, reentrant: set<nat>) {
    && blocks1.Keys == blocks0.Keys
    && forall b :: b in blocks0 ==>
         && blocks1[b] == blocks0[b].(body := blocks1[b].body)
         && Disciplined(blocks1[b].body, locations, reentrant) && Erased(blocks1[b].body) == blocks0[b].body
         && WellPlaced(blocks1[b].body, locations, reentrant)
  }

  method InsertFoldUnfold(
      f: SsaFunction, entries: map<BlockId, StorageState>, locations: Locations, reentrant: set<nat>)
    requires forall b :: b in f.blocks ==> Plain(f.blocks[b].body, locations) && b in entries && entries[b] == {}
    modifies f`blocks
    ensures Instrumented(old(f.blocks), f.blocks, locations, reentrant)
  {
    hide Disciplined, Erased, Plain, Distinct, WellPlaced;
    ghost var start := f.blocks;
    var ids := AnyOrder(f.blocks.Keys);
    for k := 0 to |ids|
      invariant f.blocks.Keys == start.Keys
      invariant forall b :: b in start ==>
        if b in ToSet(ids[..k]) then
          && f.blocks[b] == start[b].(body := f.blocks[b].body)
          && Disciplined(f.blocks[b].body, locations, reentrant) && Erased(f.blocks[b].body) == start[b].body
          && WellPlaced(f.blocks[b].body, locations, reentrant)
        else f.blocks[b] == start[b]
    {
      PrefixGrows(ids, k);
      NotBefore(ids, k);
      var b := ids[k];
      var body := InsertIntoBlock(f.blocks[b].body, entries[b], locations, reentrant);
      f.blocks := f.blocks[b := f.blocks[b].(body := body)];
    }
    assert ids[..|ids|] == ids;
  }
}
