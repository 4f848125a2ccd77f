/** The effect atom library (`EffectAtoms` of cardEffects.js): thirteen
    state transitions, each a pure function from its parameters, the effect
    context and a game state to the new state and the log lines it emits.
    Where the source mutates a card object found by `findTargets`, the model
    writes the updated card back into the slot `FindTargets` returned. */
module Atoms {
  import opened Wrappers
  import opened Cards
  import opened Seqs
  import opened Board
  import opened Targeting

  function Max(a: int, b: int): int
  {
    if a >= b then a else b
  }

  // ---------------------------------------------------------------------
  // Per-target application
  // ---------------------------------------------------------------------

  /** Applies `step` to the card at each slot of `ts` in order, logging
      `note` of the card as it was; empty slots are skipped. */
  function EachTarget(st: GameState, ts: seq<Slot>, step: Card -> Card, note: Card -> seq<Event>): (o: Outcome)
    requires NoDup(ts)
    ensures SameExceptCards(st, o.state)
    ensures forall s :: CardAt(o.state, s) ==
                          (if s in ts && CardAt(st, s).Some? then Some(step(CardAt(st, s).value)) else CardAt(st, s))
    decreases |ts|
  {
    if ts == [] then Outcome(st, [])
    else
      NoDupTail(ts);
      match CardAt(st, ts[0])
      case None => EachTarget(st, ts[1..], step, note)
      case Some(c) =>
        var o := EachTarget(SetCard(st, ts[0], step(c)), ts[1..], step, note);
        Outcome(o.state, note(c) + o.log)
  }

  /** Slot `s` is a target and holds a card. */
  predicate Held(st: GameState, ts: seq<Slot>, s: Slot)
  {
    s in ts && CardAt(st, s).Some?
  }

  /** Slot `s` is a target holding a card that meets the optional condition. */
  predicate Meets(st: GameState, ts: seq<Slot>, s: Slot, cond: Option<Condition>)
  {
    Held(st, ts, s) && CheckCondition(CardAt(st, s).value, cond)
  }

  /** `c2` is `c` with health changed by `delta` and the ceiling raised to
      the new health when it exceeds the old ceiling. */
  predicate HpRaised(c: Card, c2: Card, delta: int)
  {
    && c2.hp == c.hp + delta
    && c2.maxHp >= c2.hp
    && c2.maxHp >= c.maxHp
    && (c2.maxHp == c.maxHp || c2.maxHp == c2.hp)
    && c2 == c.(hp := c2.hp, maxHp := c2.maxHp)
  }

  function AddHp(c: Card, delta: int): (c2: Card)
    ensures HpRaised(c, c2, delta)
  {
    c.(hp := c.hp + delta, maxHp := Max(c.maxHp, c.hp + delta))
  }

  // ---------------------------------------------------------------------
  // modifyAtk / modifyHp
  // ---------------------------------------------------------------------

  /** `modifyAtk(amount, filter, condition)`: every target passing the
      optional condition gains `amount` attack. */
  function ModifyAtk(amount: int, filter: TargetFilter, cond: Option<Condition>, ctx: Ctx, st: GameState): (o: Outcome)
    ensures SameExceptCards(st, o.state)
    ensures forall s :: Meets(st, FindTargets(st, filter, ctx), s, cond) ==>
                          CardAt(o.state, s) == Some(CardAt(st, s).value.(atk := CardAt(st, s).value.atk + amount))
    ensures forall s :: !Meets(st, FindTargets(st, filter, ctx), s, cond) ==> CardAt(o.state, s) == CardAt(st, s)
  {
    EachTarget(st, FindTargets(st, filter, ctx),
      c => if CheckCondition(c, cond) then c.(atk := c.atk + amount) else c,
      c => if CheckCondition(c, cond) then [AtkChanged(c.name, amount, None, c.atk + amount)] else [])
  }

  /** `modifyHp(amount, filter, condition)`: every target passing the
      optional condition gains `amount` health, and its ceiling follows the
      new health upwards but never comes down. */
  function ModifyHp(amount: int, filter: TargetFilter, cond: Option<Condition>, ctx: Ctx, st: GameState): (o: Outcome)
    ensures SameExceptCards(st, o.state)
    ensures forall s :: Meets(st, FindTargets(st, filter, ctx), s, cond) ==>
                          CardAt(o.state, s).Some? && HpRaised(CardAt(st, s).value, CardAt(o.state, s).value, amount)
    ensures forall s :: !Meets(st, FindTargets(st, filter, ctx), s, cond) ==> CardAt(o.state, s) == CardAt(st, s)
  {
    EachTarget(st, FindTargets(st, filter, ctx),
      c => if CheckCondition(c, cond) then AddHp(c, amount) else c,
      c => if CheckCondition(c, cond) then [HpChanged(c.name, amount, None, c.hp + amount, Max(c.maxHp, c.hp + amount))] else [])
  }

  // ---------------------------------------------------------------------
  // conditionalModifyAtk / conditionalModifyHp
  // ---------------------------------------------------------------------

  /** The bonus part a card earns: `bonusAmount` when it meets the
      condition, else nothing. */
  function EarnedBonus(c: Card, bonus: int, cond: Option<Condition>): int
  {
    if CheckCondition(c, cond) then bonus else 0
  }

  function BonusNote(base: int, earned: int): Option<BonusSplit>
  {
    if earned > 0 then Some(BonusSplit(base, earned)) else None
  }

  /** One target of `conditionalModifyAtk`: attack grows by the base plus
      the earned bonus, unless that total is zero. */
  function BoostAtk(c: Card, base: int, bonus: int, cond: Option<Condition>): (c2: Card)
    ensures c2 == c.(atk := c.atk + base + EarnedBonus(c, bonus, cond))
  {
    var total := base + EarnedBonus(c, bonus, cond);
    if total != 0 then c.(atk := c.atk + total) else c
  }

  /** One target of `conditionalModifyHp`: health and ceiling move as in
      `modifyHp` by the base plus the earned bonus, unless that total is zero. */
  function BoostHp(c: Card, base: int, bonus: int, cond: Option<Condition>): (c2: Card)
    ensures base + EarnedBonus(c, bonus, cond) != 0 ==> HpRaised(c, c2, base + EarnedBonus(c, bonus, cond))
    ensures base + EarnedBonus(c, bonus, cond) == 0 ==> c2 == c
  {
    var total := base + EarnedBonus(c, bonus, cond);
    if total != 0 then AddHp(c, total) else c
  }

  function BoostNote(c: Card, base: int, bonus: int, cond: Option<Condition>, hp: bool): seq<Event>
  {
    var total := base + EarnedBonus(c, bonus, cond);
    var split := BonusNote(base, EarnedBonus(c, bonus, cond));
    if total == 0 then []
    else if hp then [HpChanged(c.name, total, split, c.hp + total, Max(c.maxHp, c.hp + total))]
    else [AtkChanged(c.name, total, split, c.atk + total)]
  }

  /** `conditionalModifyAtk(baseAmount, bonusAmount, condition, filter)`:
      each target gains `baseAmount`, plus `bonusAmount` when it meets the
      condition (always, when there is no condition). */
  function ConditionalModifyAtk(base: int, bonus: int, cond: Option<Condition>, filter: TargetFilter, ctx: Ctx, st: GameState): (o: Outcome)
    ensures SameExceptCards(st, o.state)
    ensures forall s :: Held(st, FindTargets(st, filter, ctx), s) ==>
                          CardAt(o.state, s) == Some(CardAt(st, s).value.(atk := CardAt(st, s).value.atk + base
                            + (if CheckCondition(CardAt(st, s).value, cond) then bonus else 0)))
    ensures forall s :: !Held(st, FindTargets(st, filter, ctx), s) ==> CardAt(o.state, s) == CardAt(st, s)
  {
    EachTarget(st, FindTargets(st, filter, ctx),
      c => BoostAtk(c, base, bonus, cond), c => BoostNote(c, base, bonus, cond, false))
  }

  /** `conditionalModifyHp(baseAmount, bonusAmount, condition, filter)`: as
      above for health, raising the ceiling with it; a zero total leaves the
      card, ceiling included, untouched. */
  function ConditionalModifyHp(base: int, bonus: int, cond: Option<Condition>, filter: TargetFilter, ctx: Ctx, st: GameState): (o: Outcome)
    ensures SameExceptCards(st, o.state)
    ensures forall s :: Held(st, FindTargets(st, filter, ctx), s) && base + EarnedBonus(CardAt(st, s).value, bonus, cond) != 0 ==>
                          CardAt(o.state, s).Some? &&
                          HpRaised(CardAt(st, s).value, CardAt(o.state, s).value,
                                   base + (if CheckCondition(CardAt(st, s).value, cond) then bonus else 0))
    ensures forall s :: Held(st, FindTargets(st, filter, ctx), s) && base + EarnedBonus(CardAt(st, s).value, bonus, cond) == 0 ==>
                          CardAt(o.state, s) == CardAt(st, s)
    ensures forall s :: !Held(st, FindTargets(st, filter, ctx), s) ==> CardAt(o.state, s) == CardAt(st, s)
  {
    EachTarget(st, FindTargets(st, filter, ctx),
      c => BoostHp(c, base, bonus, cond), c => BoostNote(c, base, bonus, cond, true))
  }

  // ---------------------------------------------------------------------
  // playerHeal / playerDamage
  // ---------------------------------------------------------------------

  /** The side `playerHeal` and `playerDamage` address: the acting side for
      `'self'`, the opponent for any other value, absent included. */
  function AddressedSide(player: Option<Scope>, ctx: Ctx): Side
  {
    if player == Some(SelfSide) then ctx.player else Opponent(ctx.player)
  }

  /** `playerHeal(amount, filter)`: adds `amount` to one player's health,
      without any clamping. */
  function PlayerHeal(amount: int, player: Option<Scope>, ctx: Ctx, st: GameState): (o: Outcome)
    ensures player == Some(SelfSide) ==>
      && PlayerOf(o.state, ctx.player) == PlayerOf(st, ctx.player).(health := PlayerOf(st, ctx.player).health + amount)
      && OnlyPlayerChanged(st, o.state, ctx.player)
    ensures player != Some(SelfSide) ==>
      && PlayerOf(o.state, Opponent(ctx.player)) == PlayerOf(st, Opponent(ctx.player)).(health := PlayerOf(st, Opponent(ctx.player)).health + amount)
      && OnlyPlayerChanged(st, o.state, Opponent(ctx.player))
  {
    var side := AddressedSide(player, ctx);
    var p := PlayerOf(st, side);
    Outcome(WithPlayer(st, side, p.(health := p.health + amount)), [PlayerHealed(side, amount, p.health + amount)])
  }

  /** `playerDamage(amount, filter)`: subtracts `amount` from one player's
      health; the result may go below zero. */
  function PlayerDamage(amount: int, player: Option<Scope>, ctx: Ctx, st: GameState): (o: Outcome)
    ensures player == Some(SelfSide) ==>
      && PlayerOf(o.state, ctx.player) == PlayerOf(st, ctx.player).(health := PlayerOf(st, ctx.player).health - amount)
      && OnlyPlayerChanged(st, o.state, ctx.player)
    ensures player != Some(SelfSide) ==>
      && PlayerOf(o.state, Opponent(ctx.player)) == PlayerOf(st, Opponent(ctx.player)).(health := PlayerOf(st, Opponent(ctx.player)).health - amount)
      && OnlyPlayerChanged(st, o.state, Opponent(ctx.player))
  {
    var side := AddressedSide(player, ctx);
    var p := PlayerOf(st, side);
    Outcome(WithPlayer(st, side, p.(health := p.health - amount)), [PlayerDamaged(side, amount, p.health - amount)])
  }

  // ---------------------------------------------------------------------
  // killCard
  // ---------------------------------------------------------------------

  /** The instance ids of a list of cards. */
  function IdSet(cards: seq<Card>): set<string>
  {
    set c | c in cards :: c.instanceId
  }

  /** The cards at the occupied slots of a target list, in target order. */
  function CardsAt(st: GameState, ts: seq<Slot>): seq<Card>
    decreases |ts|
  {
    if ts == [] then []
    else (match CardAt(st, ts[0]) case Some(c) => [c] case None => []) + CardsAt(st, ts[1..])
  }

  /** One target of `killCard`: every lane on either side whose card carries
      the victim's instance id is emptied, and its card is discarded, red
      lanes before blue lanes. */
  function KillOne(st: GameState, victim: Card): (o: Outcome)
    ensures SameOffBoard(st, o.state)
    ensures forall side :: Lanes(o.state, side) == SweepIds(Lanes(st, side), {victim.instanceId})
    ensures o.state.discardPile == st.discardPile
      + DroppedIds(Lanes(st, Red), {victim.instanceId}) + DroppedIds(Lanes(st, Blue), {victim.instanceId})
  {
    var ids := {victim.instanceId};
    var red, blue := PlayerOf(st, Red), PlayerOf(st, Blue);
    var gone := DroppedIds(red.battlefield, ids) + DroppedIds(blue.battlefield, ids);
    var st1 := st.(red := red.(battlefield := SweepIds(red.battlefield, ids)),
                   blue := blue.(battlefield := SweepIds(blue.battlefield, ids)),
                   discardPile := st.discardPile + gone);
    Outcome(st1, seq(|gone|, _ => Killed(victim.name)))
  }

  /** The cards both battlefields lose to a sweep by `ids`, as a multiset. */
  function DroppedBoth(st: GameState, ids: set<string>): multiset<Card>
  {
    multiset(DroppedIds(Lanes(st, Red), ids)) + multiset(DroppedIds(Lanes(st, Blue), ids))
  }

  /** The order the swept cards reach the pile, read off the lanes before
      any kill: victim by victim, the red lanes then the blue lanes holding
      its id, in lane order, skipping ids an earlier victim (`seen`) already
      swept. */
  function KillOrder(red: seq<Option<Card>>, blue: seq<Option<Card>>, victims: seq<Card>, seen: set<string>): seq<Card>
    decreases |victims|
  {
    if victims == [] then []
    else
      var ids := {victims[0].instanceId} - seen;
      DroppedIds(red, ids) + DroppedIds(blue, ids) + KillOrder(red, blue, victims[1..], seen + {victims[0].instanceId})
  }

  /** Reading the order off lanes already swept by `a` is reading it off the
      original lanes with `a` counted as seen. */
  lemma {:induction false} KillOrderAfterSweep(red: seq<Option<Card>>, blue: seq<Option<Card>>, victims: seq<Card>, seen: set<string>, a: set<string>)
    ensures KillOrder(SweepIds(red, a), SweepIds(blue, a), victims, seen) == KillOrder(red, blue, victims, seen + a)
    decreases |victims|
  {
    if victims != [] {
      var v := victims[0].instanceId;
      assert ({v} - seen) - a == {v} - (seen + a);
      DroppedAfterSweep(red, a, {v} - seen);
      DroppedAfterSweep(blue, a, {v} - seen);
      KillOrderAfterSweep(red, blue, victims[1..], seen + {v}, a);
      assert seen + {v} + a == seen + a + {v};
    }
  }

  /** The first victim's cards come first, and the rest are read off the
      lanes that victim's kill left. */
  lemma KillOrderCons(red: seq<Option<Card>>, blue: seq<Option<Card>>, victims: seq<Card>)
    requires victims != []
    ensures var v := {victims[0].instanceId};
            KillOrder(red, blue, victims, {})
            == DroppedIds(red, v) + DroppedIds(blue, v) + KillOrder(SweepIds(red, v), SweepIds(blue, v), victims[1..], {})
  {
    var v := {victims[0].instanceId};
    KillOrderAfterSweep(red, blue, victims[1..], {}, v);
    assert v - {} == v && {} + v == v;
  }

  /** The pile after the first kill and the kills of the rest is the old
      pile followed by `KillOrder` of all victims. */
  lemma KillAllPile(st: GameState, mid: GameState, fin: GameState, victims: seq<Card>)
    requires victims != []
    requires forall side :: Lanes(mid, side) == SweepIds(Lanes(st, side), {victims[0].instanceId})
    requires mid.discardPile == st.discardPile
      + DroppedIds(Lanes(st, Red), {victims[0].instanceId}) + DroppedIds(Lanes(st, Blue), {victims[0].instanceId})
    requires fin.discardPile == mid.discardPile + KillOrder(Lanes(mid, Red), Lanes(mid, Blue), victims[1..], {})
    ensures fin.discardPile == st.discardPile + KillOrder(Lanes(st, Red), Lanes(st, Blue), victims, {})
  {
    var v := {victims[0].instanceId};
    var red, blue := Lanes(st, Red), Lanes(st, Blue);
    var dr, db := DroppedIds(red, v), DroppedIds(blue, v);
    var rest := KillOrder(Lanes(mid, Red), Lanes(mid, Blue), victims[1..], {});
    assert KillOrder(red, blue, victims, {}) == dr + db + rest by {
      KillOrderCons(red, blue, victims);
      assert Lanes(mid, Red) == SweepIds(red, v) && Lanes(mid, Blue) == SweepIds(blue, v);
    }
    ConcatRegroup(st.discardPile, dr, db, rest);
  }

  /** Regrouping the appended pile pieces. */
  lemma ConcatRegroup(pile: seq<Card>, a: seq<Card>, b: seq<Card>, c: seq<Card>)
    ensures (pile + a + b) + c == pile + (a + b + c)
  {
  }

  /** Kills each victim in turn. Lanes end up swept of every victim id; the
      discard pile keeps its old contents and gains exactly the swept cards,
      in `KillOrder`. */
  function KillAll(st: GameState, victims: seq<Card>): (o: Outcome)
    ensures SameOffBoard(st, o.state)
    ensures forall side :: Lanes(o.state, side) == SweepIds(Lanes(st, side), IdSet(victims))
    ensures o.state.discardPile == st.discardPile + KillOrder(Lanes(st, Red), Lanes(st, Blue), victims, {})
    ensures multiset(o.state.discardPile) == multiset(st.discardPile) + DroppedBoth(st, IdSet(victims))
    decreases |victims|
  {
    if victims == [] then
      SweepNothing(Lanes(st, Red));
      SweepNothing(Lanes(st, Blue));
      assert IdSet(victims) == {};
      Outcome(st, [])
    else
      var first := KillOne(st, victims[0]);
      var rest := KillAll(first.state, victims[1..]);
      IdSetCons(victims);
      KillAllLanes(st, first.state, rest.state, {victims[0].instanceId}, IdSet(victims[1..]));
      KillAllDiscard(st, first.state, rest.state, {victims[0].instanceId}, IdSet(victims[1..]));
      KillAllPile(st, first.state, rest.state, victims);
      Outcome(rest.state, first.log + rest.log)
  }

  lemma IdSetCons(victims: seq<Card>)
    requires victims != []
    ensures IdSet(victims) == {victims[0].instanceId} + IdSet(victims[1..])
  {
    assert forall c :: c in victims <==> c == victims[0] || c in victims[1..] by {
      assert victims == [victims[0]] + victims[1..];
    }
  }

  /** Sweeping by `a` and then by `b` leaves the lanes a sweep by `a + b`
      leaves. */
  lemma KillAllLanes(st: GameState, mid: GameState, fin: GameState, a: set<string>, b: set<string>)
    requires forall side :: Lanes(mid, side) == SweepIds(Lanes(st, side), a)
    requires forall side :: Lanes(fin, side) == SweepIds(Lanes(mid, side), b)
    ensures forall side :: Lanes(fin, side) == SweepIds(Lanes(st, side), a + b)
  {
    forall side ensures Lanes(fin, side) == SweepIds(Lanes(st, side), a + b) {
      SweepSweep(Lanes(st, side), a, b);
    }
  }

  /** Discarding what a sweep by `a` drops, then what a sweep by `b` drops
      from what is left, discards what a sweep by `a + b` drops. */
  lemma KillAllDiscard(st: GameState, mid: GameState, fin: GameState, a: set<string>, b: set<string>)
    requires forall side :: Lanes(mid, side) == SweepIds(Lanes(st, side), a)
    requires mid.discardPile == st.discardPile + DroppedIds(Lanes(st, Red), a) + DroppedIds(Lanes(st, Blue), a)
    requires multiset(fin.discardPile) == multiset(mid.discardPile) + DroppedBoth(mid, b)
    ensures multiset(fin.discardPile) == multiset(st.discardPile) + DroppedBoth(st, a + b)
  {
    var lr, lb := Lanes(st, Red), Lanes(st, Blue);
    DroppedAfterSweep(lr, a, b);
    DroppedAfterSweep(lb, a, b);
    DroppedSplit(lr, a, b);
    DroppedSplit(lb, a, b);
    assert DroppedBoth(mid, b) == multiset(DroppedIds(lr, b - a)) + multiset(DroppedIds(lb, b - a));
  }

  /** `killCard(filter)`: each target's instance id is looked up on both
      battlefields; every lane holding it is emptied and its card moved to
      the discard pile. Lane counts, hands and players do not change. */
  function KillCard(filter: TargetFilter, ctx: Ctx, st: GameState): (o: Outcome)
    ensures SameOffBoard(st, o.state)
    ensures forall side :: |Lanes(o.state, side)| == |Lanes(st, side)|
    ensures forall side, i :: 0 <= i < |Lanes(st, side)| ==>
      Lanes(o.state, side)[i] ==
        (if Lanes(st, side)[i].Some? && Lanes(st, side)[i].value.instanceId in IdSet(CardsAt(st, FindTargets(st, filter, ctx)))
         then None else Lanes(st, side)[i])
    ensures o.state.discardPile == st.discardPile
      + KillOrder(Lanes(st, Red), Lanes(st, Blue), CardsAt(st, FindTargets(st, filter, ctx)), {})
    ensures multiset(o.state.discardPile) == multiset(st.discardPile) + DroppedBoth(st, IdSet(CardsAt(st, FindTargets(st, filter, ctx))))
  {
    KillAll(st, CardsAt(st, FindTargets(st, filter, ctx)))
  }

  // ---------------------------------------------------------------------
  // clearField
  // ---------------------------------------------------------------------

  /** The sides `clearField` sweeps: `'self'`, `'opponent'`, and both (red
      first) for anything else, a missing filter included. */
  function ClearedSides(player: Option<Scope>, me: Side): seq<Side>
  {
    match player
    case Some(SelfSide) => [me]
    case Some(OpponentSide) => [Opponent(me)]
    case _ => [Red, Blue]
  }

  /** A card `clearField` removes: no exception list, or neither race tag
      in it. */
  predicate Removable(c: Card, exceptRace: Option<seq<string>>)
  {
    exceptRace.None? || !HasRace(c, exceptRace.value)
  }

  /** The cards one side loses, in lane order. */
  function Swept(lanes: seq<Option<Card>>, exceptRace: Option<seq<string>>): (r: seq<Card>)
    ensures forall c :: c in r <==> Some(c) in lanes && Removable(c, exceptRace)
  {
    Filter(c => Removable(c, exceptRace), NonNull(lanes))
  }

  /** No two occupied lanes hold cards with the same instance id. */
  predicate UniqueLaneIds(lanes: seq<Option<Card>>)
  {
    forall i, j :: 0 <= i < |lanes| && 0 <= j < |lanes| && i != j && lanes[i].Some? && lanes[j].Some?
      ==> lanes[i].value.instanceId != lanes[j].value.instanceId
  }

  /** How one side's lanes look after a sweep: same count, empty lanes stay
      empty, removable cards are gone, and a lane that still holds a card
      holds the card it held before. */
  predicate LanesCleared(old_: seq<Option<Card>>, new_: seq<Option<Card>>, exceptRace: Option<seq<string>>)
  {
    && |new_| == |old_|
    && forall i :: 0 <= i < |old_| ==>
         && (old_[i].Some? && Removable(old_[i].value, exceptRace) ==> new_[i].None?)
         && (new_[i].Some? ==> new_[i] == old_[i])
  }

  /** Clears one side: the removable cards go to the discard pile in lane
      order and every lane whose card shares an instance id with one of them
      is emptied. */
  function ClearSide(st: GameState, side: Side, exceptRace: Option<seq<string>>): (o: Outcome)
    ensures SameOffBoard(st, o.state)
    ensures Lanes(o.state, Opponent(side)) == Lanes(st, Opponent(side))
    ensures LanesCleared(Lanes(st, side), Lanes(o.state, side), exceptRace)
    ensures Lanes(o.state, side) == SweepIds(Lanes(st, side), IdSet(Swept(Lanes(st, side), exceptRace)))
    ensures o.state.discardPile == st.discardPile + Swept(Lanes(st, side), exceptRace)
  {
    var p := PlayerOf(st, side);
    var gone := Swept(p.battlefield, exceptRace);
    var st1 := WithPlayer(st, side, p.(battlefield := SweepIds(p.battlefield, IdSet(gone))));
    assert forall i :: 0 <= i < |p.battlefield| && p.battlefield[i].Some? && Removable(p.battlefield[i].value, exceptRace) ==>
                       p.battlefield[i].value in gone;
    Outcome(st1.(discardPile := st1.discardPile + gone), seq(|gone|, i requires 0 <= i < |gone| => Cleared(gone[i].name)))
  }

  /** `clearField(filter)`. */
  function ClearField(player: Option<Scope>, exceptRace: Option<seq<string>>, ctx: Ctx, st: GameState): (o: Outcome)
    ensures SameOffBoard(st, o.state)
    ensures forall side :: side in ClearedSides(player, ctx.player) ==>
      LanesCleared(Lanes(st, side), Lanes(o.state, side), exceptRace)
    ensures forall side :: side !in ClearedSides(player, ctx.player) ==> Lanes(o.state, side) == Lanes(st, side)
    ensures player == Some(SelfSide) ==> o.state.discardPile == st.discardPile + Swept(Lanes(st, ctx.player), exceptRace)
    ensures player == Some(OpponentSide) ==> o.state.discardPile == st.discardPile + Swept(Lanes(st, Opponent(ctx.player)), exceptRace)
    ensures player != Some(SelfSide) && player != Some(OpponentSide) ==>
      o.state.discardPile == st.discardPile + Swept(Lanes(st, Red), exceptRace) + Swept(Lanes(st, Blue), exceptRace)
  {
    match player
    case Some(SelfSide) => ClearSide(st, ctx.player, exceptRace)
    case Some(OpponentSide) => ClearSide(st, Opponent(ctx.player), exceptRace)
    case _ =>
      var o1 := ClearSide(st, Red, exceptRace);
      var o2 := ClearSide(o1.state, Blue, exceptRace);
      Outcome(o2.state, o1.log + o2.log)
  }

  /** With unique instance ids, a lane whose card is not removable keeps
      it through the sweep of one side. */
  lemma SweepSpares(lanes: seq<Option<Card>>, exceptRace: Option<seq<string>>, i: nat)
    requires UniqueLaneIds(lanes)
    requires i < |lanes| && lanes[i].Some? && !Removable(lanes[i].value, exceptRace)
    ensures SweepIds(lanes, IdSet(Swept(lanes, exceptRace)))[i] == lanes[i]
  {
    var gone := Swept(lanes, exceptRace);
    var c := lanes[i].value;
    forall d | d in gone ensures d.instanceId != c.instanceId {
      var j :| 0 <= j < |lanes| && lanes[j] == Some(d);
      assert j != i;
    }
  }

  /** With unique instance ids on a cleared side, a card whose race is in
      the exception list stays exactly where it was. */
  lemma ClearFieldSparesExcepted(player: Option<Scope>, exceptRace: Option<seq<string>>, ctx: Ctx, st: GameState, side: Side, i: nat)
    requires side in ClearedSides(player, ctx.player)
    requires UniqueLaneIds(Lanes(st, side))
    requires i < |Lanes(st, side)| && Lanes(st, side)[i].Some? && !Removable(Lanes(st, side)[i].value, exceptRace)
    ensures Lanes(ClearField(player, exceptRace, ctx, st).state, side)[i] == Lanes(st, side)[i]
  {
    SweepSpares(Lanes(st, side), exceptRace, i);
    if player != Some(SelfSide) && player != Some(OpponentSide) && side == Blue {
      assert Lanes(ClearSide(st, Red, exceptRace).state, Blue) == Lanes(st, Blue);
    }
  }

  // ---------------------------------------------------------------------
  // freeze / removeDebuffs
  // ---------------------------------------------------------------------

  /** `freeze(turns, filter)`: every target's frozen counter is set to
      `turns`, replacing any earlier value. */
  function Freeze(turns: int, filter: TargetFilter, ctx: Ctx, st: GameState): (o: Outcome)
    ensures SameExceptCards(st, o.state)
    ensures forall s :: s in FindTargets(st, filter, ctx) && CardAt(st, s).Some? ==>
      CardAt(o.state, s) == Some(CardAt(st, s).value.(frozen := Some(turns)))
    ensures forall s :: !Held(st, FindTargets(st, filter, ctx), s) ==> CardAt(o.state, s) == CardAt(st, s)
  {
    EachTarget(st, FindTargets(st, filter, ctx), (c: Card) => c.(frozen := Some(turns)), (c: Card) => [FrozenFor(c.name, turns)])
  }

  /** A non-zero frozen counter; a zero counter is falsy in the source and
      so does not count as frozen. */
  predicate IsFrozen(c: Card)
  {
    c.frozen.Some? && c.frozen.value != 0
  }

  /** `removeDebuffs(filter)`: a frozen target loses its frozen counter;
      other targets, and every other field, are left as they were. */
  function RemoveDebuffs(filter: TargetFilter, ctx: Ctx, st: GameState): (o: Outcome)
    ensures SameExceptCards(st, o.state)
    ensures forall s :: s in FindTargets(st, filter, ctx) && CardAt(st, s).Some? ==>
      CardAt(o.state, s).Some? && !IsFrozen(CardAt(o.state, s).value)
      && CardAt(o.state, s).value == CardAt(st, s).value.(frozen := CardAt(o.state, s).value.frozen)
      && (IsFrozen(CardAt(st, s).value) <==> CardAt(o.state, s) != CardAt(st, s))
    ensures forall s :: !Held(st, FindTargets(st, filter, ctx), s) ==> CardAt(o.state, s) == CardAt(st, s)
  {
    EachTarget(st, FindTargets(st, filter, ctx),
      c => if IsFrozen(c) then c.(frozen := None) else c,
      c => if IsFrozen(c) then [Thawed(c.name)] else [])
  }

  // ---------------------------------------------------------------------
  // gainCoins
  // ---------------------------------------------------------------------

  /** The `condition` of `gainCoins`: a card condition plus the amount
      granted instead of `amount` when some card on the board meets it. */
  datatype CoinBonus = CoinBonus(when: Condition, bonus: Option<int>)

  /** Some lane holds a card meeting the condition. */
  function AnyLaneMeets(lanes: seq<Option<Card>>, cond: Condition): (b: bool)
    ensures b <==> exists i :: 0 <= i < |lanes| && lanes[i].Some? && CheckCondition(lanes[i].value, Some(cond))
    decreases |lanes|
  {
    if lanes == [] then false
    else if lanes[0].Some? && CheckCondition(lanes[0].value, Some(cond)) then true
    else
      var rest := AnyLaneMeets(lanes[1..], cond);
      assert rest ==> exists i :: 0 <= i < |lanes| && lanes[i].Some? && CheckCondition(lanes[i].value, Some(cond)) by {
        if rest {
          var k :| 0 <= k < |lanes[1..]| && lanes[1..][k].Some? && CheckCondition(lanes[1..][k].value, Some(cond));
          assert lanes[k + 1] == lanes[1..][k];
        }
      }
      assert (exists i :: 0 <= i < |lanes| && lanes[i].Some? && CheckCondition(lanes[i].value, Some(cond))) ==> rest by {
        if exists i :: 0 <= i < |lanes| && lanes[i].Some? && CheckCondition(lanes[i].value, Some(cond)) {
          var k :| 0 <= k < |lanes| && lanes[k].Some? && CheckCondition(lanes[k].value, Some(cond));
          assert k != 0;
          assert lanes[1..][k - 1] == lanes[k];
        }
      }
      rest
  }

  /** Some card on either battlefield meets the condition. */
  predicate OnEitherField(st: GameState, cond: Condition)
  {
    exists side, i :: 0 <= i < |Lanes(st, side)| && Lanes(st, side)[i].Some?
      && CheckCondition(Lanes(st, side)[i].value, Some(cond))
  }

  /** The coins `gainCoins` grants. */
  function CoinsGranted(amount: int, cond: Option<CoinBonus>, st: GameState): (n: int)
    ensures n == (if cond.Some? && cond.value.bonus.Some? && OnEitherField(st, cond.value.when)
                  then cond.value.bonus.value else amount)
  {
    match cond
    case None => amount
    case Some(CoinBonus(when, bonus)) =>
      var hit := AnyLaneMeets(Lanes(st, Red), when) || AnyLaneMeets(Lanes(st, Blue), when);
      assert hit <==> OnEitherField(st, when) by {
        if OnEitherField(st, when) {
          var side, i :| 0 <= i < |Lanes(st, side)| && Lanes(st, side)[i].Some?
            && CheckCondition(Lanes(st, side)[i].value, Some(when));
          assert side == Red || side == Blue;
        }
      }
      if hit && bonus.Some? then bonus.value else amount
  }

  /** `gainCoins(amount, condition)`: the acting player gains `amount`
      coins, or the condition's `bonus` instead when the condition has one
      and some card on either battlefield meets it. */
  function GainCoins(amount: int, cond: Option<CoinBonus>, ctx: Ctx, st: GameState): (o: Outcome)
    ensures OnlyPlayerChanged(st, o.state, ctx.player)
    ensures PlayerOf(o.state, ctx.player) == PlayerOf(st, ctx.player).(coins := PlayerOf(st, ctx.player).coins
      + (if cond.Some? && cond.value.bonus.Some? && OnEitherField(st, cond.value.when) then cond.value.bonus.value else amount))
  {
    var n := CoinsGranted(amount, cond, st);
    var p := PlayerOf(st, ctx.player);
    Outcome(WithPlayer(st, ctx.player, p.(coins := p.coins + n)), [CoinsGained(n, p.coins + n)])
  }

  // ---------------------------------------------------------------------
  // conditionalKillPlayer
  // ---------------------------------------------------------------------

  /** `conditionalKillPlayer({playerHpThreshold})`: the opponent's health
      drops to 0 exactly when it is at most the threshold; otherwise the
      state is unchanged. The acting player is never touched. */
  function ConditionalKillPlayer(threshold: int, ctx: Ctx, st: GameState): (o: Outcome)
    ensures OnlyPlayerChanged(st, o.state, Opponent(ctx.player))
    ensures PlayerOf(st, Opponent(ctx.player)).health <= threshold ==>
      PlayerOf(o.state, Opponent(ctx.player)) == PlayerOf(st, Opponent(ctx.player)).(health := 0)
    ensures o.state == st <==> (PlayerOf(st, Opponent(ctx.player)).health > threshold || PlayerOf(st, Opponent(ctx.player)).health == 0)
  {
    var opp := Opponent(ctx.player);
    var p := PlayerOf(st, opp);
    if p.health <= threshold then
      var r := WithPlayer(st, opp, p.(health := 0));
      assert p.health != 0 ==> PlayerOf(r, opp) != PlayerOf(st, opp);
      Outcome(r, [Executed])
    else Outcome(st, [ExecutionFailed(p.health)])
  }

  // ---------------------------------------------------------------------
  // cascadeDamage
  // ---------------------------------------------------------------------

  /** Health of the card in lane `i` (0 for an empty or missing lane). */
  function HpAt(lanes: seq<Option<Card>>, i: nat): int
  {
    if i < |lanes| && lanes[i].Some? then lanes[i].value.hp else 0
  }

  /** Lane `i` ranks before lane `j`: more health, or equal health and an
      earlier lane (the stable order of a descending sort by health). */
  predicate RanksBefore(lanes: seq<Option<Card>>, i: nat, j: nat)
  {
    HpAt(lanes, i) > HpAt(lanes, j) || (HpAt(lanes, i) == HpAt(lanes, j) && i < j)
  }

  predicate Ranked(lanes: seq<Option<Card>>, order: seq<nat>)
  {
    forall a, b :: 0 <= a < b < |order| ==> RanksBefore(lanes, order[a], order[b])
  }

  /** Indices of the occupied lanes from `k` on, ascending. */
  function OccupiedFrom(lanes: seq<Option<Card>>, k: nat): (r: seq<nat>)
    ensures forall i :: i in r <==> k <= i < |lanes| && lanes[i].Some?
    ensures forall a :: 0 <= a < |r| ==> k <= r[a]
    ensures forall a, b :: 0 <= a < b < |r| ==> r[a] < r[b]
    decreases |lanes| - k
  {
    if k >= |lanes| then []
    else if lanes[k].Some? then [k] + OccupiedFrom(lanes, k + 1)
    else OccupiedFrom(lanes, k + 1)
  }

  /** `y` followed by a ranked list whose every lane `y` outranks is ranked. */
  lemma RankedCons(lanes: seq<Option<Card>>, y: nat, ys: seq<nat>)
    requires Ranked(lanes, ys)
    requires forall b :: 0 <= b < |ys| ==> RanksBefore(lanes, y, ys[b])
    ensures Ranked(lanes, [y] + ys)
  {
    var r := [y] + ys;
    forall a, b | 0 <= a < b < |r| ensures RanksBefore(lanes, r[a], r[b]) {
      if a > 0 {
        assert r[a] == ys[a - 1] && r[b] == ys[b - 1];
      }
    }
  }

  /** Inserts lane `x`, which precedes every lane of `ys` in lane order,
      after the lanes of greater health. */
  function InsertRanked(lanes: seq<Option<Card>>, x: nat, ys: seq<nat>): (r: seq<nat>)
    requires Ranked(lanes, ys)
    requires forall a :: 0 <= a < |ys| ==> x < ys[a]
    ensures multiset(r) == multiset(ys) + multiset{x}
    ensures forall z :: z in r <==> z == x || z in ys
    ensures Ranked(lanes, r)
    decreases |ys|
  {
    if ys == [] || HpAt(lanes, x) >= HpAt(lanes, ys[0]) then
      assert forall b :: 0 <= b < |ys| ==> RanksBefore(lanes, x, ys[b]) by {
        forall b | 0 <= b < |ys| ensures RanksBefore(lanes, x, ys[b]) {
          if b > 0 { assert RanksBefore(lanes, ys[0], ys[b]); }
        }
      }
      RankedCons(lanes, x, ys);
      [x] + ys
    else
      var tail := InsertRanked(lanes, x, ys[1..]);
      assert ys == [ys[0]] + ys[1..];
      assert forall b :: 0 <= b < |tail| ==> RanksBefore(lanes, ys[0], tail[b]) by {
        forall b | 0 <= b < |tail| ensures RanksBefore(lanes, ys[0], tail[b]) {
          assert tail[b] in tail;
          if tail[b] != x {
            var a :| 0 <= a < |ys[1..]| && ys[1..][a] == tail[b];
            assert RanksBefore(lanes, ys[0], ys[a + 1]);
          }
        }
      }
      RankedCons(lanes, ys[0], tail);
      [ys[0]] + tail
  }

  /** In an ascending list the head is below every later element. */
  lemma HeadBelowTail(xs: seq<nat>)
    requires xs != []
    requires forall a, b :: 0 <= a < b < |xs| ==> xs[a] < xs[b]
    ensures forall z :: z in xs[1..] ==> xs[0] < z
  {
    forall z | z in xs[1..] ensures xs[0] < z {
      var b :| 0 <= b < |xs[1..]| && xs[1..][b] == z;
      assert xs[b + 1] == z;
    }
  }

  /** Stable descending sort of lane indices by health (an insertion sort,
      standing for `Array.prototype.sort` with `b.hp - a.hp`, which is
      stable). */
  function SortByHp(lanes: seq<Option<Card>>, xs: seq<nat>): (r: seq<nat>)
    requires forall a, b :: 0 <= a < b < |xs| ==> xs[a] < xs[b]
    ensures multiset(r) == multiset(xs)
    ensures forall z :: z in r <==> z in xs
    ensures Ranked(lanes, r)
    decreases |xs|
  {
    if xs == [] then []
    else
      var rest := SortByHp(lanes, xs[1..]);
      assert xs == [xs[0]] + xs[1..];
      HeadBelowTail(xs);
      assert forall a :: 0 <= a < |rest| ==> xs[0] < rest[a] by {
        forall a | 0 <= a < |rest| ensures xs[0] < rest[a] {
          assert rest[a] in rest;
        }
      }
      InsertRanked(lanes, xs[0], rest)
  }

  /** A ranked list holds no lane twice: no lane ranks before itself. */
  lemma RankedNoDup(lanes: seq<Option<Card>>, order: seq<nat>)
    requires Ranked(lanes, order)
    ensures NoDup(order)
  {
    forall a, b | 0 <= a < b < |order| ensures order[a] != order[b] {
      assert RanksBefore(lanes, order[a], order[b]);
    }
  }

  /** The order in which `cascadeDamage` hits the occupied lanes: every
      occupied lane exactly once, by health descending, ties by lane. */
  function CascadeOrder(lanes: seq<Option<Card>>): (order: seq<nat>)
    ensures forall i :: i in order <==> 0 <= i < |lanes| && lanes[i].Some?
    ensures multiset(order) == multiset(OccupiedFrom(lanes, 0))
    ensures NoDup(order)
    ensures Ranked(lanes, order)
  {
    var occ := OccupiedFrom(lanes, 0);
    var order := SortByHp(lanes, occ);
    RankedNoDup(lanes, order);
    order
  }

  /** The damage for rank `k`: `Math.max(1, baseDamage - k)`. */
  function RankDamage(base: int, k: nat): (d: int)
    ensures d >= 1
    ensures d >= base - k
    ensures d == 1 || d == base - k
  {
    Max(1, base - k)
  }

  /** Position of `x` in `xs`. */
  function IndexOf(xs: seq<nat>, x: nat): (k: nat)
    requires x in xs
    ensures k < |xs| && xs[k] == x
    ensures forall j :: 0 <= j < k ==> xs[j] != x
  {
    if xs[0] == x then 0 else 1 + IndexOf(xs[1..], x)
  }

  lemma IndexOfNoDup(xs: seq<nat>, k: nat)
    requires NoDup(xs) && k < |xs|
    ensures IndexOf(xs, xs[k]) == k
  {
  }

  /** The card at rank `k` of `order` lost exactly `RankDamage(base, k)`
      health and nothing else. */
  predicate RankHits(before: seq<Option<Card>>, after: seq<Option<Card>>, order: seq<nat>, base: int)
  {
    && |after| == |before|
    && forall k :: 0 <= k < |order| ==>
         && order[k] < |before| && before[order[k]].Some?
         && after[order[k]] == Some(before[order[k]].value.(hp := before[order[k]].value.hp - RankDamage(base, k)))
  }

  /** Empty lanes stayed empty and every card lost at least one health,
      keeping its place and every other field. */
  predicate LanesHurt(before: seq<Option<Card>>, after: seq<Option<Card>>)
  {
    && |after| == |before|
    && forall i :: 0 <= i < |before| ==>
         && (before[i].None? ==> after[i].None?)
         && (before[i].Some? ==> after[i].Some? && after[i].value.hp <= before[i].value.hp - 1
                                 && after[i].value == before[i].value.(hp := after[i].value.hp))
  }

  /** Every occupied lane loses the damage of its rank in `order`. */
  function HitRanks(lanes: seq<Option<Card>>, order: seq<nat>, base: int): (r: seq<Option<Card>>)
    requires forall i :: 0 <= i < |lanes| && lanes[i].Some? ==> i in order
    requires forall a :: 0 <= a < |order| ==> order[a] < |lanes| && lanes[order[a]].Some?
    requires NoDup(order)
    ensures RankHits(lanes, r, order, base)
    ensures LanesHurt(lanes, r)
  {
    forall k | 0 <= k < |order| ensures IndexOf(order, order[k]) == k {
      IndexOfNoDup(order, k);
    }
    seq(|lanes|, i requires 0 <= i < |lanes| =>
      match lanes[i]
      case None => None
      case Some(c) => Some(c.(hp := c.hp - RankDamage(base, IndexOf(order, i)))))
  }

  function HitEvents(lanes: seq<Option<Card>>, order: seq<nat>, base: int, k: nat): seq<Event>
    requires forall a :: 0 <= a < |order| ==> order[a] < |lanes| && lanes[order[a]].Some?
    requires k <= |order|
    decreases |order| - k
  {
    if k == |order| then []
    else
      var c := lanes[order[k]].value;
      var left := c.hp - RankDamage(base, k);
      [CascadeHit(c.name, RankDamage(base, k), left)]
        + (if left <= 0 then [Defeated(c.name)] else [])
        + HitEvents(lanes, order, base, k + 1)
  }

  /** `cascadeDamage(baseDamage)`: the opponent's cards are ranked by
      health, highest first and ties in lane order, and the card at rank
      `k` loses `max(1, baseDamage - k)` health. Cards are not removed. The
      acting side, both players' health and coins, hands and decks are
      untouched. */
  function CascadeDamage(base: int, ctx: Ctx, st: GameState): (o: Outcome)
    ensures OnlyPlayerChanged(st, o.state, Opponent(ctx.player))
    ensures PlayerOf(o.state, Opponent(ctx.player))
            == PlayerOf(st, Opponent(ctx.player)).(battlefield := Lanes(o.state, Opponent(ctx.player)))
    ensures RankHits(Lanes(st, Opponent(ctx.player)), Lanes(o.state, Opponent(ctx.player)),
                     CascadeOrder(Lanes(st, Opponent(ctx.player))), base)
    ensures LanesHurt(Lanes(st, Opponent(ctx.player)), Lanes(o.state, Opponent(ctx.player)))
  {
    var opp := Opponent(ctx.player);
    var p := PlayerOf(st, opp);
    var order := CascadeOrder(p.battlefield);
    assert forall a :: 0 <= a < |order| ==> order[a] in order;
    var hit := HitRanks(p.battlefield, order, base);
    Outcome(WithPlayer(st, opp, p.(battlefield := hit)), HitEvents(p.battlefield, order, base, 0))
  }
}
