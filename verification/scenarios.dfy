/** Properties of the built-in catalog, and worked examples of its cards on
    small boards. */
module Scenarios {
  import opened Wrappers
  import opened Cards
  import opened Board
  import opened Targeting
  import opened Catalog
  import opened Engine
  import Atoms

  // ---------------------------------------------------------------------
  // The built-in catalog through the query functions
  // ---------------------------------------------------------------------

  /** Exactly the six single-target support cards ask for a target. */
  lemma BuiltinNeedsTarget(id: int)
    ensures NeedsTarget(BuiltinCatalog, id) <==> id in {71, 72, 73, 74, 84, 89}
  {
  }

  /** A built-in card has a target filter exactly when it needs a target. */
  lemma BuiltinTargetFilter(id: int)
    ensures GetTargetFilter(BuiltinCatalog, id).Some? <==> NeedsTarget(BuiltinCatalog, id)
  {
  }

  /** No built-in entry carries a description. */
  lemma BuiltinDescriptions(id: int)
    ensures GetDescription(BuiltinCatalog, id) == ""
  {
  }

  /** The opponent-only filter of card 84 is not checked: every card is
      accepted, whether or not it is on a battlefield. */
  lemma OpponentFilterAcceptsAnyCard(t: Card, st: GameState)
    ensures IsValidTarget(BuiltinCatalog, 84, t, st)
  {
  }

  // ---------------------------------------------------------------------
  // Small boards
  // ---------------------------------------------------------------------

  function Unit(id: string, race: string, atk: int, hp: int): (c: Card)
    ensures c.hp == c.maxHp
  {
    Card(1, id, "unit", Battlefield, "common", race, "", 1.0, atk, hp, hp, "", None)
  }

  function Side0(health: int, lanes: seq<Option<Card>>): Player
  {
    Player(health, 0, lanes, [], [])
  }

  function Board2(red: seq<Option<Card>>, blue: seq<Option<Card>>): GameState
  {
    GameState(Side0(30, red), Side0(30, blue), [], [], [], 1, "main")
  }

  function WithHealth(st: GameState, side: Side, health: int): GameState
  {
    WithPlayer(st, side, PlayerOf(st, side).(health := health))
  }

  /** Card 16's only step names an atom the library lacks: the state comes
      back unchanged with one log line naming it. */
  lemma WerewolfStepIsSkipped(player: Side, card: Option<Card>, st: GameState)
    ensures Trigger(BuiltinCatalog, 16, Invocation(player, card, None), st)
            == Success(Outcome(st, [UnimplementedAtom("checkSurvivalAndAct")]))
  {
    BuiltinCatalogValid();
    var inv := Invocation(player, card, None);
    var atoms: seq<Atom> := [Unknown("checkSurvivalAndAct")];
    assert BuiltinCatalog[16].effects == Some(atoms) && !BuiltinCatalog[16].needsTarget;
    assert Runs(BuiltinCatalog, 16, inv, st);
    var ctx := ContextFor(inv, st);
    UnknownStepSkipped([], "checkSurvivalAndAct", [], ctx, st);
    assert [] + atoms + [] == atoms;
    assert RunChain([], ctx, st) == Outcome(st, []);
    assert RunChain(atoms, ctx, st) == Outcome(st, [UnimplementedAtom("checkSurvivalAndAct")]);
    assert Trigger(BuiltinCatalog, 16, inv, st) == Success(RunChain(atoms, ctx, st));
  }

  /** The passive entries without an effect list (28, 29, 30) fault once
      they get past the target checks. */
  lemma PassiveEntriesFault(id: int, player: Side, card: Option<Card>, st: GameState)
    requires id in {28, 29, 30}
    ensures Trigger(BuiltinCatalog, id, Invocation(player, card, None), st) == Failure(NoEffectList(id))
  {
    BuiltinCatalogValid();
    assert BuiltinCatalog[id].effects.None? && !BuiltinCatalog[id].needsTarget by {
      if id == 28 { } else if id == 29 { } else { }
    }
  }

  /** Card 84 accepts a card that is on no battlefield, and `trigger` then
      reports the target lost and changes nothing. */
  lemma AcceptedButLost()
    ensures var t := Unit("x", "军队", 3, 3);
            var st := Board2([None], [None]);
            && IsValidTarget(BuiltinCatalog, 84, t, st)
            && Trigger(BuiltinCatalog, 84, Invocation(Red, None, Some(t)), st) == Success(Outcome(st, [TargetLost]))
  {
    BuiltinCatalogValid();
    var t := Unit("x", "军队", 3, 3);
    var st := Board2([None], [None]);
    assert !OnField(st, t.instanceId) by {
      forall side, i ensures !HoldsId(Lanes(st, side), i, t.instanceId) {
        if side == Red { } else { }
      }
    }
  }

  /** Three lanes with distinct health, the first highest and the second
      lowest, rank as lane 0, lane 2, lane 1. */
  lemma RankedThree(lanes: seq<Option<Card>>, order: seq<nat>)
    requires multiset(order) == multiset([0, 1, 2])
    requires Atoms.Ranked(lanes, order)
    requires Atoms.HpAt(lanes, 0) > Atoms.HpAt(lanes, 2) > Atoms.HpAt(lanes, 1)
    ensures order == [0, 2, 1]
  {
    assert |order| == |multiset(order)| == 3;
    assert forall x :: x in order <==> x in multiset(order);
    assert Atoms.RanksBefore(lanes, order[0], order[1]);
    assert Atoms.RanksBefore(lanes, order[0], order[2]);
    assert Atoms.RanksBefore(lanes, order[1], order[2]);
    assert order[0] in order && order[1] in order && order[2] in order;
    assert 0 in order && 1 in order && 2 in order;
  }

  /** The opponent lanes of the cascade example. */
  function CascadeLanes(): seq<Option<Card>>
  {
    [Some(Unit("a", "", 1, 20)), Some(Unit("b", "", 1, 5)), Some(Unit("c", "", 1, 12))]
  }

  /** Three occupied lanes list as 0, 1, 2. */
  lemma OccupiedThree(lanes: seq<Option<Card>>)
    requires |lanes| == 3 && lanes[0].Some? && lanes[1].Some? && lanes[2].Some?
    ensures Atoms.OccupiedFrom(lanes, 0) == [0, 1, 2]
  {
    assert Atoms.OccupiedFrom(lanes, 3) == [];
    assert Atoms.OccupiedFrom(lanes, 2) == [2];
    assert Atoms.OccupiedFrom(lanes, 1) == [1, 2];
  }

  /** Three occupied lanes, the first the healthiest and the second the
      weakest, are hit in the order 0, 2, 1. */
  lemma OrderOfThree(lanes: seq<Option<Card>>)
    requires |lanes| == 3 && lanes[0].Some? && lanes[1].Some? && lanes[2].Some?
    requires lanes[0].value.hp > lanes[2].value.hp > lanes[1].value.hp
    ensures Atoms.CascadeOrder(lanes) == [0, 2, 1]
  {
    OccupiedThree(lanes);
    RankedThree(lanes, Atoms.CascadeOrder(lanes));
  }

  /** Three lanes hit in the order 0, 2, 1 by a base damage of 10 lose 10,
      8 and 9 health. */
  lemma HitsInOrderTwoOne(before: seq<Option<Card>>, after: seq<Option<Card>>, a: Card, b: Card, c: Card)
    requires before == [Some(a), Some(b), Some(c)]
    requires Atoms.RankHits(before, after, [0, 2, 1], 10)
    ensures after == [Some(a.(hp := a.hp - 10)), Some(b.(hp := b.hp - 8)), Some(c.(hp := c.hp - 9))]
  {
    var order: seq<nat> := [0, 2, 1];
    assert Atoms.RankDamage(10, 0) == 10 && Atoms.RankDamage(10, 1) == 9 && Atoms.RankDamage(10, 2) == 8;
    assert after[order[0]] == Some(a.(hp := a.hp - 10));
    assert after[order[1]] == Some(c.(hp := c.hp - 9));
    assert after[order[2]] == Some(b.(hp := b.hp - 8));
  }

  /** `cascadeDamage(10)` against three occupied opponent lanes, the first
      the healthiest and the second the weakest: they lose 10, 8 and 9
      health, and the caster's lanes are untouched. */
  lemma CascadeOnThree(ctx: Ctx, st: GameState, a: Card, b: Card, c: Card)
    requires Lanes(st, Opponent(ctx.player)) == [Some(a), Some(b), Some(c)]
    requires a.hp > c.hp > b.hp
    ensures var after := Atoms.CascadeDamage(10, ctx, st).state;
            && Lanes(after, Opponent(ctx.player))
               == [Some(a.(hp := a.hp - 10)), Some(b.(hp := b.hp - 8)), Some(c.(hp := c.hp - 9))]
            && Lanes(after, ctx.player) == Lanes(st, ctx.player)
  {
    var before := Lanes(st, Opponent(ctx.player));
    var after := Atoms.CascadeDamage(10, ctx, st).state;
    OrderOfThree(before);
    HitsInOrderTwoOne(before, Lanes(after, Opponent(ctx.player)), a, b, c);
    assert Opponent(Opponent(ctx.player)) == ctx.player;
  }

  /** `cascadeDamage(10)` on opponent lanes holding 20, 5 and 12 health:
      ranks are 20, 12, 5, so they are left with 10, -3 and 3. */
  lemma CascadeExample()
    ensures var after := Atoms.CascadeDamage(10, Ctx(Red, None, None), Board2([], CascadeLanes())).state;
            && Lanes(after, Blue) == [Some(Unit("a", "", 1, 20).(hp := 10)),
                                      Some(Unit("b", "", 1, 5).(hp := -3)),
                                      Some(Unit("c", "", 1, 12).(hp := 3))]
            && Lanes(after, Red) == []
  {
    var a, b, c := Unit("a", "", 1, 20), Unit("b", "", 1, 5), Unit("c", "", 1, 12);
    var st := Board2([], CascadeLanes());
    assert Lanes(st, Blue) == [Some(a), Some(b), Some(c)];
    CascadeOnThree(Ctx(Red, None, None), st, a, b, c);
    assert a.(hp := a.hp - 10) == Unit("a", "", 1, 20).(hp := 10);
    assert b.(hp := b.hp - 8) == Unit("b", "", 1, 5).(hp := -3);
    assert c.(hp := c.hp - 9) == Unit("c", "", 1, 12).(hp := 3);
  }

  /** Card 8 with threshold 7: an opponent at 7 health is set to 0, one at
      8 is left alone. */
  lemma ExecutionThreshold(st: GameState)
    ensures var s7 := WithHealth(st, Blue, 7);
            var r := Trigger(BuiltinCatalog, 8, Invocation(Red, None, None), s7);
            r.Success? && PlayerOf(r.value.state, Blue).health == 0 && PlayerOf(r.value.state, Red) == PlayerOf(st, Red)
    ensures var s8 := WithHealth(st, Blue, 8);
            Trigger(BuiltinCatalog, 8, Invocation(Red, None, None), s8).value.state == s8
  {
    BuiltinCatalogValid();
    var atoms := BuiltinCatalog[8].effects.value;
    assert atoms == [ConditionalKillPlayer(7)] && atoms[1..] == [];
  }

  /** Card 71 runs its one step whenever its target is on a battlefield. */
  lemma OathSwordRuns(inv: Invocation, st: GameState)
    requires inv.target.Some? && OnField(st, inv.target.value.instanceId)
    ensures Trigger(BuiltinCatalog, 71, inv, st)
            == Success(RunChain(OathSword.effects.value, ContextFor(inv, st), st))
  {
    BuiltinCatalogValid();
    assert BuiltinCatalog[71] == OathSword;
    assert Runs(BuiltinCatalog, 71, inv, st);
  }

  /** A one-lane red side and an empty blue side: the selected card is
      re-bound to red lane 0, and the conditional boost there adds the base
      plus the bonus the card earns. */
  lemma BoostOnlyLane(t: Card, inv: Invocation, st: GameState, base: int, bonus: int, cond: Option<Condition>)
    requires Lanes(st, Red) == [Some(t)] && Lanes(st, Blue) == []
    requires inv.target == Some(t)
    ensures var o := Atoms.ConditionalModifyAtk(base, bonus, cond, SelectedTarget, ContextFor(inv, st), st);
            Lanes(o.state, Red) == [Some(t.(atk := t.atk + base + Atoms.EarnedBonus(t, bonus, cond)))]
  {
    assert HoldsId(Lanes(st, Red), 0, t.instanceId);
    var ctx := ContextFor(inv, st);
    assert ctx.target == Some(Lane(Red, 0));
    var o := Atoms.ConditionalModifyAtk(base, bonus, cond, SelectedTarget, ctx, st);
    assert FindTargets(st, SelectedTarget, ctx) == [Lane(Red, 0)];
    assert Atoms.Held(st, [Lane(Red, 0)], Lane(Red, 0));
    var after := Lanes(o.state, Red);
    assert |after| == 1 && after[0] == CardAt(o.state, Lane(Red, 0));
    assert after == [after[0]];
  }

  /** Card 71's step on a selected card alone on the board. */
  lemma OathSwordChain(t: Card, inv: Invocation, st: GameState)
    requires Lanes(st, Red) == [Some(t)] && Lanes(st, Blue) == []
    requires inv.target == Some(t)
    ensures Lanes(RunChain(OathSword.effects.value, ContextFor(inv, st), st).state, Red)
            == [Some(t.(atk := t.atk + 2 + (if HasRace(t, ["军队", "平民", "骷髅"]) then 1 else 0)))]
  {
    var cond := RaceIs(["军队", "平民", "骷髅"]);
    var atoms := OathSword.effects.value;
    var ctx := ContextFor(inv, st);
    var o := Atoms.ConditionalModifyAtk(2, 1, cond, SelectedTarget, ctx, st);
    assert RunChain(atoms, ctx, st).state == o.state by {
      assert RunAtom(atoms[0], ctx, st) == o;
      assert atoms[1..] == [];
    }
    BoostOnlyLane(t, inv, st, 2, 1, cond);
  }

  /** Card 71 on a selected card alone on the board adds base 2 plus
      bonus 1 when the card is 军队, 平民 or 骷髅, and only the base 2
      otherwise. */
  lemma OathSwordBonus(t: Card, st: GameState)
    requires Lanes(st, Red) == [Some(t)] && Lanes(st, Blue) == []
    ensures var r := Trigger(BuiltinCatalog, 71, Invocation(Red, None, Some(t)), st);
            && r.Success?
            && Lanes(r.value.state, Red)
               == [Some(t.(atk := t.atk + 2 + (if HasRace(t, ["军队", "平民", "骷髅"]) then 1 else 0)))]
  {
    var inv := Invocation(Red, None, Some(t));
    assert HoldsId(Lanes(st, Red), 0, t.instanceId);
    OathSwordRuns(inv, st);
    OathSwordChain(t, inv, st);
  }

  /** The condition of card 92's coin bonus: a 贵族 or 罪犯 card. */
  const TaxCondition: Condition := Condition(Some(["贵族", "罪犯"]), None, None)

  /** Card 92, played by either side on any board, grants that side 2 coins
      when a 贵族 or 罪犯 card is on either battlefield, and 1 otherwise;
      nothing else changes. */
  lemma TaxBonus(side: Side, st: GameState)
    ensures var r := Trigger(BuiltinCatalog, 92, Invocation(side, None, None), st);
            && r.Success?
            && OnlyPlayerChanged(st, r.value.state, side)
            && PlayerOf(r.value.state, side)
               == PlayerOf(st, side).(coins := PlayerOf(st, side).coins + (if Atoms.OnEitherField(st, TaxCondition) then 2 else 1))
  {
    BuiltinCatalogValid();
    var atoms := BuiltinCatalog[92].effects.value;
    var step := GainCoins(1, Some(Atoms.CoinBonus(TaxCondition, Some(2))));
    assert atoms == [step];
    var ctx := Ctx(side, None, None);
    assert ContextFor(Invocation(side, None, None), st) == ctx;
    assert RunChain(atoms, ctx, st).state == Atoms.GainCoins(1, Some(Atoms.CoinBonus(TaxCondition, Some(2))), ctx, st).state;
  }

  /** A lone 罪犯 card on the caster's own battlefield earns the bonus. */
  lemma TaxBonusForCriminal(st: GameState)
    requires Lanes(st, Red) == [Some(Unit("c", "罪犯", 1, 1))]
    ensures var r := Trigger(BuiltinCatalog, 92, Invocation(Red, None, None), st);
            r.Success? && PlayerOf(r.value.state, Red).coins == PlayerOf(st, Red).coins + 2
  {
    TaxBonus(Red, st);
    assert Lanes(st, Red)[0].Some? && CheckCondition(Lanes(st, Red)[0].value, Some(TaxCondition));
  }
}
