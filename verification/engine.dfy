/** The dispatcher (`EffectEngine` of cardEffects.js): `trigger` looks a card
    up in a catalog, re-binds the selected target to the working state, checks
    that a target is present when one is needed and runs the configured atoms
    in order; the remaining members are the read-only queries the UI uses. */
module Engine {
  import opened Wrappers
  import opened Cards
  import opened Seqs
  import opened Board
  import opened Targeting
  import opened Catalog
  import Atoms

  // ---------------------------------------------------------------------
  // What every atom keeps
  // ---------------------------------------------------------------------

  /** What no atom changes: the decks, the turn and phase, every player's
      buildings and the number of lanes and hand cards; the discard pile
      only grows at its end. */
  predicate Layout(a: GameState, b: GameState)
  {
    && a.deck == b.deck
    && a.miracleDeck == b.miracleDeck
    && a.turn == b.turn
    && a.phase == b.phase
    && LayoutPlayer(a.red, b.red)
    && LayoutPlayer(a.blue, b.blue)
    && |a.discardPile| <= |b.discardPile|
    && b.discardPile[..|a.discardPile|] == a.discardPile
  }

  predicate LayoutPlayer(p: Player, q: Player)
  {
    p.buildings == q.buildings && |p.battlefield| == |q.battlefield| && |p.hand| == |q.hand|
  }

  lemma LayoutTrans(a: GameState, b: GameState, c: GameState)
    requires Layout(a, b) && Layout(b, c)
    ensures Layout(a, c)
  {
    assert c.discardPile[..|a.discardPile|] == b.discardPile[..|a.discardPile|];
  }

  /** No card in a lane or a hand has more health than its ceiling. */
  ghost predicate WithinCeiling(st: GameState)
  {
    forall s :: CardAt(st, s).Some? ==> CardAt(st, s).value.hp <= CardAt(st, s).value.maxHp
  }

  /** A state whose every slot kept its card or holds one within its
      ceiling is within the ceiling if the old one was. */
  lemma CeilingBySlots(st: GameState, r: GameState)
    requires WithinCeiling(st)
    requires forall s :: CardAt(r, s) == CardAt(st, s)
                         || (CardAt(r, s).Some? && CardAt(r, s).value.hp <= CardAt(r, s).value.maxHp)
    ensures WithinCeiling(r)
  {
  }

  /** The lane-level form of `CeilingBySlots`, for atoms that leave hands
      alone and only empty lanes or lower health. */
  lemma CeilingByLanes(st: GameState, r: GameState)
    requires WithinCeiling(st)
    requires forall side :: PlayerOf(r, side).hand == PlayerOf(st, side).hand
    requires forall side, i :: 0 <= i < |Lanes(r, side)| && Lanes(r, side)[i].Some? ==>
               || (i < |Lanes(st, side)| && Lanes(st, side)[i] == Lanes(r, side)[i])
               || Lanes(r, side)[i].value.hp <= Lanes(r, side)[i].value.maxHp
    ensures WithinCeiling(r)
  {
    forall s | CardAt(r, s).Some? ensures CardAt(r, s).value.hp <= CardAt(r, s).value.maxHp {
      if s.Lane? {
        assert CardAt(r, s) == Lanes(r, s.side)[s.index];
        if s.index < |Lanes(st, s.side)| && Lanes(st, s.side)[s.index] == Lanes(r, s.side)[s.index] {
          assert CardAt(st, s) == CardAt(r, s);
        }
      } else {
        assert CardAt(st, s) == CardAt(r, s);
      }
    }
  }

  // ---------------------------------------------------------------------
  // Running atoms
  // ---------------------------------------------------------------------

  /** One effect step: the atom with the parameters the dispatcher passes
      it. A step naming an atom the library lacks is logged and skipped. */
  function RunAtom(a: Atom, ctx: Ctx, st: GameState): (o: Outcome)
    requires Runnable(a)
    ensures a.Unknown? ==> o == Outcome(st, [UnimplementedAtom(a.name)])
    ensures a.PlayerHeal? || a.PlayerDamage? || a.GainCoins? || a.ConditionalKillPlayer? ==> o.state.discardPile == st.discardPile
  {
    match a
    case ModifyAtk(amount, base, f, c) => Atoms.ModifyAtk(EffectiveAmount(amount, base).value, f, c, ctx, st)
    case ModifyHp(amount, base, f, c) => Atoms.ModifyHp(EffectiveAmount(amount, base).value, f, c, ctx, st)
    case ConditionalModifyAtk(base, bonus, c, f) => Atoms.ConditionalModifyAtk(base, bonus, c, f, ctx, st)
    case ConditionalModifyHp(base, bonus, c, f) => Atoms.ConditionalModifyHp(base, bonus, c, f, ctx, st)
    case PlayerHeal(amount, player) => Atoms.PlayerHeal(amount, player, ctx, st)
    case PlayerDamage(amount, player) => Atoms.PlayerDamage(amount, player, ctx, st)
    case KillCard(f) => Atoms.KillCard(f, ctx, st)
    case ClearField(player, except) => Atoms.ClearField(player, except, ctx, st)
    case Freeze(turns, f) => Atoms.Freeze(turns, f, ctx, st)
    case GainCoins(amount, rule) => Atoms.GainCoins(amount, rule, ctx, st)
    case RemoveDebuffs(f) => Atoms.RemoveDebuffs(f, ctx, st)
    case ConditionalKillPlayer(threshold) => Atoms.ConditionalKillPlayer(threshold, ctx, st)
    case CascadeDamage(base) => Atoms.CascadeDamage(base, ctx, st)
    case Unknown(name) => Outcome(st, [UnimplementedAtom(name)])
  }

  /** An atom that only rewrites cards in their slots keeps the layout. */
  lemma LayoutOfSlotAtom(st: GameState, r: GameState)
    requires SameExceptCards(st, r)
    ensures Layout(st, r)
  {
  }

  /** An atom that only touches one player's record keeps the layout, and
      keeps the ceiling when it leaves that record's cards alone. */
  lemma LayoutOfPlayerAtom(st: GameState, r: GameState, side: Side)
    requires OnlyPlayerChanged(st, r, side)
    requires PlayerOf(r, side).buildings == PlayerOf(st, side).buildings
    requires PlayerOf(r, side).battlefield == PlayerOf(st, side).battlefield
    requires PlayerOf(r, side).hand == PlayerOf(st, side).hand
    ensures Layout(st, r)
    ensures WithinCeiling(st) ==> WithinCeiling(r)
  {
    assert PlayerOf(r, Opponent(side)) == PlayerOf(st, Opponent(side));
    assert PlayerOf(r, side).battlefield == PlayerOf(st, side).battlefield;
    assert r.red.battlefield == st.red.battlefield && r.blue.battlefield == st.blue.battlefield;
    assert r.red.hand == st.red.hand && r.blue.hand == st.blue.hand;
    if WithinCeiling(st) {
      CeilingByLanes(st, r);
    }
  }

  /** An atom that only empties lanes and adds to the discard pile keeps
      the layout and the ceiling. */
  lemma LayoutOfSweep(st: GameState, r: GameState)
    requires SameOffBoard(st, r)
    requires forall side :: |Lanes(r, side)| == |Lanes(st, side)|
    requires forall side, i :: 0 <= i < |Lanes(r, side)| && Lanes(r, side)[i].Some? ==> Lanes(r, side)[i] == Lanes(st, side)[i]
    requires |st.discardPile| <= |r.discardPile| && r.discardPile[..|st.discardPile|] == st.discardPile
    ensures Layout(st, r)
    ensures WithinCeiling(st) ==> WithinCeiling(r)
  {
    assert |Lanes(r, Red)| == |Lanes(st, Red)| && |Lanes(r, Blue)| == |Lanes(st, Blue)|;
    if WithinCeiling(st) {
      CeilingByLanes(st, r);
    }
  }

  /** The card atoms keep the layout and the ceiling: they only rewrite
      cards in place, and where they raise health they raise the ceiling. */
  lemma CardAtomKeeps(a: Atom, ctx: Ctx, st: GameState)
    requires Runnable(a)
    requires a.ModifyAtk? || a.ModifyHp? || a.ConditionalModifyAtk? || a.ConditionalModifyHp? || a.Freeze? || a.RemoveDebuffs?
    ensures Layout(st, RunAtom(a, ctx, st).state)
    ensures WithinCeiling(st) ==> WithinCeiling(RunAtom(a, ctx, st).state)
  {
    var r := RunAtom(a, ctx, st).state;
    LayoutOfSlotAtom(st, r);
    if WithinCeiling(st) { CeilingBySlots(st, r); }
  }

  /** The player atoms touch one player's health or coins only. */
  lemma PlayerAtomKeeps(a: Atom, ctx: Ctx, st: GameState)
    requires a.PlayerHeal? || a.PlayerDamage? || a.GainCoins? || a.ConditionalKillPlayer?
    ensures Layout(st, RunAtom(a, ctx, st).state)
    ensures WithinCeiling(st) ==> WithinCeiling(RunAtom(a, ctx, st).state)
  {
    var r := RunAtom(a, ctx, st).state;
    var side := match a
      case PlayerHeal(_, player) => if player == Some(SelfSide) then ctx.player else Opponent(ctx.player)
      case PlayerDamage(_, player) => if player == Some(SelfSide) then ctx.player else Opponent(ctx.player)
      case GainCoins(_, _) => ctx.player
      case _ => Opponent(ctx.player);
    LayoutOfPlayerAtom(st, r, side);
  }

  /** `killCard` and `clearField` only empty lanes. */
  lemma SweepAtomKeeps(a: Atom, ctx: Ctx, st: GameState)
    requires a.KillCard? || a.ClearField?
    ensures Layout(st, RunAtom(a, ctx, st).state)
    ensures WithinCeiling(st) ==> WithinCeiling(RunAtom(a, ctx, st).state)
  {
    var r := RunAtom(a, ctx, st).state;
    if a.ClearField? {
      forall side ensures |Lanes(r, side)| == |Lanes(st, side)| {
        assert side in Atoms.ClearedSides(a.player, ctx.player) || side !in Atoms.ClearedSides(a.player, ctx.player);
      }
    }
    LayoutOfSweep(st, r);
  }

  /** A state where one side's lanes were only hurt, as `LanesHurt` says,
      keeps the layout and the ceiling. */
  lemma HurtKeeps(st: GameState, r: GameState, side: Side)
    requires OnlyPlayerChanged(st, r, side)
    requires PlayerOf(r, side) == PlayerOf(st, side).(battlefield := Lanes(r, side))
    requires Atoms.LanesHurt(Lanes(st, side), Lanes(r, side))
    ensures Layout(st, r)
    ensures WithinCeiling(st) ==> WithinCeiling(r)
  {
    var p, q := PlayerOf(st, side), PlayerOf(r, side);
    assert LayoutPlayer(p, q);
    assert LayoutPlayer(st.red, r.red) && LayoutPlayer(st.blue, r.blue) by {
      assert side == Red || side == Blue;
    }
    if WithinCeiling(st) {
      forall i | 0 <= i < |q.battlefield| && q.battlefield[i].Some?
        ensures q.battlefield[i].value.hp <= q.battlefield[i].value.maxHp
      {
        assert CardAt(st, Lane(side, i)) == p.battlefield[i];
      }
      assert r.red.hand == st.red.hand && r.blue.hand == st.blue.hand;
      CeilingByLanes(st, r);
    }
  }

  /** `cascadeDamage` only lowers the health of the opponent's cards. */
  lemma CascadeKeeps(a: Atom, ctx: Ctx, st: GameState)
    requires a.CascadeDamage?
    ensures Layout(st, RunAtom(a, ctx, st).state)
    ensures WithinCeiling(st) ==> WithinCeiling(RunAtom(a, ctx, st).state)
  {
    var o := RunAtom(a, ctx, st);
    HurtKeeps(st, o.state, Opponent(ctx.player));
  }

  /** Every atom keeps the layout, and none lifts a card above its health
      ceiling: `modifyHp` and `conditionalModifyHp` raise the ceiling with
      the health, and `cascadeDamage` only lowers health. */
  lemma AtomKeeps(a: Atom, ctx: Ctx, st: GameState)
    requires Runnable(a)
    ensures Layout(st, RunAtom(a, ctx, st).state)
    ensures WithinCeiling(st) ==> WithinCeiling(RunAtom(a, ctx, st).state)
  {
    if a.ModifyAtk? || a.ModifyHp? || a.ConditionalModifyAtk? || a.ConditionalModifyHp? || a.Freeze? || a.RemoveDebuffs? {
      CardAtomKeeps(a, ctx, st);
    } else if a.PlayerHeal? || a.PlayerDamage? || a.GainCoins? || a.ConditionalKillPlayer? {
      PlayerAtomKeeps(a, ctx, st);
    } else if a.KillCard? || a.ClearField? {
      SweepAtomKeeps(a, ctx, st);
    } else if a.CascadeDamage? {
      CascadeKeeps(a, ctx, st);
    }
  }

  predicate AllRunnable(atoms: seq<Atom>)
  {
    forall k :: 0 <= k < |atoms| ==> Runnable(atoms[k])
  }

  /** The effect chain: each step runs on the state the previous one left,
      and the logs are concatenated. The layout is kept and the health
      ceiling stays respected across the whole chain. */
  function RunChain(atoms: seq<Atom>, ctx: Ctx, st: GameState): (o: Outcome)
    requires AllRunnable(atoms)
    ensures Layout(st, o.state)
    ensures WithinCeiling(st) ==> WithinCeiling(o.state)
    decreases |atoms|
  {
    if atoms == [] then Outcome(st, [])
    else
      var first := RunAtom(atoms[0], ctx, st);
      var rest := RunChain(atoms[1..], ctx, first.state);
      AtomKeeps(atoms[0], ctx, st);
      LayoutTrans(st, first.state, rest.state);
      Outcome(rest.state, first.log + rest.log)
  }

  /** Running `xs + ys` is running `xs` and then `ys` on what `xs` left. */
  lemma {:induction false} ChainAppend(xs: seq<Atom>, ys: seq<Atom>, ctx: Ctx, st: GameState)
    requires AllRunnable(xs) && AllRunnable(ys)
    ensures AllRunnable(xs + ys)
    ensures RunChain(xs + ys, ctx, st).state == RunChain(ys, ctx, RunChain(xs, ctx, st).state).state
    ensures RunChain(xs + ys, ctx, st).log == RunChain(xs, ctx, st).log + RunChain(ys, ctx, RunChain(xs, ctx, st).state).log
    decreases |xs|
  {
    assert AllRunnable(xs + ys) by {
      forall k | 0 <= k < |xs + ys| ensures Runnable((xs + ys)[k]) {
        if k < |xs| { assert (xs + ys)[k] == xs[k]; } else { assert (xs + ys)[k] == ys[k - |xs|]; }
      }
    }
    if xs == [] {
      assert xs + ys == ys;
    } else {
      var zs := xs + ys;
      assert zs[0] == xs[0] && zs[1..] == xs[1..] + ys;
      var first := RunAtom(xs[0], ctx, st);
      assert AllRunnable(xs[1..]) by {
        forall k | 0 <= k < |xs[1..]| ensures Runnable(xs[1..][k]) { assert xs[1..][k] == xs[k + 1]; }
      }
      ChainAppend(xs[1..], ys, ctx, first.state);
      var tail := RunChain(xs[1..], ctx, first.state);
      var after := RunChain(ys, ctx, tail.state);
      assert RunChain(xs, ctx, st) == Outcome(tail.state, first.log + tail.log);
      assert RunChain(zs, ctx, st) == Outcome(RunChain(xs[1..] + ys, ctx, first.state).state,
                                              first.log + RunChain(xs[1..] + ys, ctx, first.state).log);
      assert first.log + (tail.log + after.log) == (first.log + tail.log) + after.log;
    }
  }

  /** A step naming an undefined atom leaves the state exactly as the
      chain without it would, and only adds its own log line. */
  lemma UnknownStepSkipped(xs: seq<Atom>, name: string, ys: seq<Atom>, ctx: Ctx, st: GameState)
    requires AllRunnable(xs) && AllRunnable(ys)
    ensures AllRunnable(xs + [Unknown(name)] + ys)
    ensures RunChain(xs + [Unknown(name)] + ys, ctx, st).state == RunChain(xs + ys, ctx, st).state
    ensures RunChain(xs + [Unknown(name)] + ys, ctx, st).log
            == RunChain(xs, ctx, st).log + [UnimplementedAtom(name)] + RunChain(ys, ctx, RunChain(xs, ctx, st).state).log
  {
    var u := [Unknown(name)];
    assert AllRunnable(u);
    ChainAppend(xs, u, ctx, st);
    ChainAppend(xs + u, ys, ctx, st);
    ChainAppend(xs, ys, ctx, st);
    var mid := RunChain(xs, ctx, st).state;
    assert RunChain(u, ctx, mid) == Outcome(mid, [UnimplementedAtom(name)]) by {
      assert u[1..] == [];
    }
  }

  // ---------------------------------------------------------------------
  // Re-binding the selected target
  // ---------------------------------------------------------------------

  /** The card in lane `i` carries instance id `id`. */
  predicate HoldsId(lanes: seq<Option<Card>>, i: int, id: string)
  {
    0 <= i < |lanes| && lanes[i].Some? && lanes[i].value.instanceId == id
  }

  /** The last lane holding `id`. */
  function LastWithId(lanes: seq<Option<Card>>, id: string): (r: Option<nat>)
    ensures r.Some? ==> HoldsId(lanes, r.value, id)
    ensures r.Some? ==> forall j :: r.value < j < |lanes| ==> !HoldsId(lanes, j, id)
    ensures r.None? ==> forall j :: 0 <= j < |lanes| ==> !HoldsId(lanes, j, id)
    decreases |lanes|
  {
    if lanes == [] then None
    else if HoldsId(lanes, |lanes| - 1, id) then Some(|lanes| - 1)
    else
      var r := LastWithId(lanes[..|lanes| - 1], id);
      assert forall j :: 0 <= j < |lanes| - 1 ==> (HoldsId(lanes, j, id) <==> HoldsId(lanes[..|lanes| - 1], j, id));
      r
  }

  /** Some lane of either battlefield holds `id`. */
  ghost predicate OnField(st: GameState, id: string)
  {
    exists side, i :: HoldsId(Lanes(st, side), i, id)
  }

  /** The lane the working copy of a selected card sits in: the source scans
      red lanes and then blue lanes and keeps the last match. */
  function Rebind(st: GameState, id: string): (r: Option<Slot>)
    ensures r.Some? <==> OnField(st, id)
    ensures r.Some? ==> r.value.Lane? && HoldsId(Lanes(st, r.value.side), r.value.index, id)
    ensures r.Some? && r.value.side == Red ==> forall j :: !HoldsId(Lanes(st, Blue), j, id)
    ensures r.Some? ==> forall j :: r.value.index < j ==> !HoldsId(Lanes(st, r.value.side), j, id)
  {
    match LastWithId(Lanes(st, Blue), id)
    case Some(i) => Some(Lane(Blue, i))
    case None =>
      match LastWithId(Lanes(st, Red), id)
      case Some(i) => Some(Lane(Red, i))
      case None =>
        assert forall side, i :: !HoldsId(Lanes(st, side), i, id) by {
          forall side, i ensures !HoldsId(Lanes(st, side), i, id) {
            if side == Red { } else { }
          }
        }
        None
  }

  // ---------------------------------------------------------------------
  // trigger
  // ---------------------------------------------------------------------

  /** The caller's context: acting side, the card played, and the card the
      player selected (a card of the caller's, not yet of the working copy). */
  datatype Invocation = Invocation(player: Side, card: Option<Card>, target: Option<Card>)

  /** A configuration without an `effects` list: the source's `forEach` on
      it throws. */
  datatype Fault = NoEffectList(cardId: int)

  /** The selected card, if any, is on a battlefield of the state. */
  ghost predicate TargetPresent(st: GameState, inv: Invocation)
  {
    inv.target.None? || OnField(st, inv.target.value.instanceId)
  }

  /** The configured chain runs: the card is configured, its target (if
      given) is found, a target is given when needed, and there is a list. */
  ghost predicate Runs(cat: map<int, Config>, cardId: int, inv: Invocation, st: GameState)
  {
    && cardId in cat
    && TargetPresent(st, inv)
    && (cat[cardId].needsTarget ==> inv.target.Some?)
    && cat[cardId].effects.Some?
  }

  function ContextFor(inv: Invocation, st: GameState): Ctx
  {
    Ctx(inv.player, inv.card, if inv.target.Some? then Rebind(st, inv.target.value.instanceId) else None)
  }

  /** `EffectEngine.trigger`. Every early exit returns the given state
      unchanged, with at most one log line saying why. */
  function Trigger(cat: map<int, Config>, cardId: int, inv: Invocation, st: GameState): (r: Result<Outcome, Fault>)
    requires ValidCatalog(cat)
    ensures cardId !in cat ==> r == Success(Outcome(st, []))
    ensures cardId in cat && !TargetPresent(st, inv) ==> r == Success(Outcome(st, [TargetLost]))
    ensures cardId in cat && TargetPresent(st, inv) && cat[cardId].needsTarget && inv.target.None?
            ==> r == Success(Outcome(st, [TargetRequired(cat[cardId].name)]))
    ensures r.Failure? <==> && cardId in cat && TargetPresent(st, inv)
                            && (cat[cardId].needsTarget ==> inv.target.Some?) && cat[cardId].effects.None?
    ensures r.Failure? ==> r.error == NoEffectList(cardId)
    ensures r.Success? && r.value.state != st ==> Runs(cat, cardId, inv, st)
    ensures r.Success? ==> Layout(st, r.value.state)
    ensures r.Success? && WithinCeiling(st) ==> WithinCeiling(r.value.state)
    ensures Runs(cat, cardId, inv, st) ==> r.Success? && r.value == RunChain(cat[cardId].effects.value, ContextFor(inv, st), st)
  {
    if cardId !in cat then Success(Outcome(st, []))
    else
      var cfg := cat[cardId];
      var ctx := ContextFor(inv, st);
      if inv.target.Some? && ctx.target.None? then Success(Outcome(st, [TargetLost]))
      else if cfg.needsTarget && ctx.target.None? then Success(Outcome(st, [TargetRequired(cfg.name)]))
      else
        match cfg.effects
        case None => Failure(NoEffectList(cardId))
        case Some(atoms) =>
          assert ValidConfig(cfg);
          Success(RunChain(atoms, ctx, st))
  }

  /** When the chain runs, a selected card is re-bound to a lane of the
      working state holding a card with the same instance id. */
  lemma SelectedTargetRebound(inv: Invocation, st: GameState)
    requires TargetPresent(st, inv) && inv.target.Some?
    ensures ContextFor(inv, st).target.Some?
    ensures var s := ContextFor(inv, st).target.value;
            s.Lane? && CardAt(st, s).Some? && CardAt(st, s).value.instanceId == inv.target.value.instanceId
  {
  }

  // ---------------------------------------------------------------------
  // Queries
  // ---------------------------------------------------------------------

  /** `needsTarget`: an unknown card needs none. */
  function NeedsTarget(cat: map<int, Config>, cardId: int): (b: bool)
    ensures b ==> cardId in cat
    ensures cardId in cat ==> b == cat[cardId].needsTarget
  {
    cardId in cat && cat[cardId].needsTarget
  }

  /** A card that needs a target and is played without one leaves the state
      as it was, whatever the state. */
  lemma NeedsTargetMeansRefusal(cat: map<int, Config>, cardId: int, inv: Invocation, st: GameState)
    requires ValidCatalog(cat)
    requires NeedsTarget(cat, cardId) && inv.target.None?
    ensures Trigger(cat, cardId, inv, st) == Success(Outcome(st, [TargetRequired(cat[cardId].name)]))
  {
  }

  /** `getTargetFilter`. */
  function GetTargetFilter(cat: map<int, Config>, cardId: int): (f: Option<TargetFilter>)
    ensures f.Some? ==> cardId in cat && cat[cardId].targetFilter == f
    ensures cardId in cat ==> f == cat[cardId].targetFilter
  {
    if cardId in cat then cat[cardId].targetFilter else None
  }

  /** `isValidTarget`: only a battlefield filter over both sides or the
      acting side is checked, by looking the card's instance id up on either
      battlefield; every other filter, the opponent-only one included,
      accepts any card. */
  function IsValidTarget(cat: map<int, Config>, cardId: int, target: Card, st: GameState): (ok: bool)
    ensures !ok <==> && NeedsTarget(cat, cardId)
                     && GetTargetFilter(cat, cardId).Some?
                     && GetTargetFilter(cat, cardId).value.location == Some(OnBattlefield)
                     && GetTargetFilter(cat, cardId).value.player in {Some(BothSides), Some(SelfSide)}
                     && !OnField(st, target.instanceId)
  {
    if cardId !in cat || !cat[cardId].needsTarget then true
    else
      match cat[cardId].targetFilter
      case None => true
      case Some(f) =>
        if f.location == Some(OnBattlefield) then
          var onRed := exists i | 0 <= i < |Lanes(st, Red)| :: HoldsId(Lanes(st, Red), i, target.instanceId);
          var onBlue := exists i | 0 <= i < |Lanes(st, Blue)| :: HoldsId(Lanes(st, Blue), i, target.instanceId);
          assert onRed || onBlue <==> OnField(st, target.instanceId) by {
            if OnField(st, target.instanceId) {
              var side, i :| HoldsId(Lanes(st, side), i, target.instanceId);
              if side == Red { assert onRed; } else { assert onBlue; }
            }
          }
          if f.player == Some(BothSides) then onRed || onBlue
          else if f.player == Some(SelfSide) then onRed || onBlue
          else true
        else true
  }

  /** A target `isValidTarget` rejects is one `trigger` reports lost. */
  lemma RejectedTargetIsLost(cat: map<int, Config>, cardId: int, t: Card, player: Side, card: Option<Card>, st: GameState)
    requires ValidCatalog(cat)
    requires !IsValidTarget(cat, cardId, t, st)
    ensures Trigger(cat, cardId, Invocation(player, card, Some(t)), st) == Success(Outcome(st, [TargetLost]))
  {
  }

  /** `getDescription`: the configured description, else the empty string. */
  function GetDescription(cat: map<int, Config>, cardId: int): (d: string)
    ensures cardId !in cat || cat[cardId].description.None? ==> d == ""
    ensures cardId in cat && cat[cardId].description.Some? ==> d == cat[cardId].description.value
  {
    if cardId in cat && cat[cardId].description.Some? then cat[cardId].description.value else ""
  }

  /** `xs` is strictly increasing. */
  predicate Increasing(xs: seq<int>)
  {
    forall i, j :: 0 <= i < j < |xs| ==> xs[i] < xs[j]
  }

  function InsertSorted(xs: seq<int>, x: int): (r: seq<int>)
    requires Increasing(xs) && x !in xs
    ensures Increasing(r)
    ensures forall y :: y in r <==> y == x || y in xs
    ensures |r| == |xs| + 1
    decreases |xs|
  {
    if xs == [] || x < xs[0] then [x] + xs
    else
      var tail := InsertSorted(xs[1..], x);
      assert forall k :: 0 <= k < |tail| ==> xs[0] < tail[k] by {
        forall k | 0 <= k < |tail| ensures xs[0] < tail[k] {
          assert tail[k] in tail;
        }
      }
      [xs[0]] + tail
  }

  /** `getConfiguredCards`: the configured ids, in the ascending order
      `Object.keys` lists integer keys in. */
  method GetConfiguredCards(cat: map<int, Config>) returns (ids: seq<int>)
    ensures Increasing(ids)
    ensures forall id :: id in ids <==> id in cat
    ensures |ids| == |cat|
  {
    ids := [];
    var rest := cat.Keys;
    while rest != {}
      invariant rest <= cat.Keys
      invariant Increasing(ids)
      invariant forall id :: id in ids <==> id in cat.Keys - rest
      invariant |ids| + |rest| == |cat.Keys|
      decreases rest
    {
      assert exists x :: x in rest by {
        if forall x :: x !in rest { assert false; }
      }
      var k :| k in rest;
      ids := InsertSorted(ids, k);
      rest := rest - {k};
    }
  }
}
