/** The effect catalog (`CardEffectConfigs` of cardEffects.js): one typed
    configuration per card id. An effect step is an `Atom` naming one of the
    thirteen atoms with the parameters the engine passes to it; a step whose
    atom name the library does not define is `Unknown`. */
module Catalog {
  import opened Wrappers
  import opened Cards
  import opened Targeting
  import Atoms

  /** One entry of a configuration's `effects` list. */
  datatype Atom =
    /** The optional `amount` and `baseAmount` fields; the engine passes
        `amount || baseAmount`. */
    | ModifyAtk(givenAmount: Option<int>, givenBase: Option<int>, filter: TargetFilter, condition: Option<Condition>)
    | ModifyHp(givenAmount: Option<int>, givenBase: Option<int>, filter: TargetFilter, condition: Option<Condition>)
    | ConditionalModifyAtk(baseAmount: int, bonusAmount: int, condition: Option<Condition>, filter: TargetFilter)
    | ConditionalModifyHp(baseAmount: int, bonusAmount: int, condition: Option<Condition>, filter: TargetFilter)
    | PlayerHeal(amount: int, player: Option<Scope>)
    | PlayerDamage(amount: int, player: Option<Scope>)
    | KillCard(filter: TargetFilter)
    | ClearField(player: Option<Scope>, exceptRace: Option<seq<string>>)
    | Freeze(turns: int, filter: TargetFilter)
    | GainCoins(amount: int, bonusRule: Option<Atoms.CoinBonus>)
    | RemoveDebuffs(filter: TargetFilter)
    | ConditionalKillPlayer(threshold: int)
    | CascadeDamage(baseDamage: int)
    | Unknown(name: string)

  /** The `trigger` field. */
  datatype Timing = OnPlay | OnAfterBattle | OnTurnStart | PassiveTiming

  /** The `countRace` condition of the passive elf cards: `atkBonus` attack
      while at least `threshold` cards of the listed races are in play. No
      code reads it; it is carried as data. */
  datatype RaceCount = RaceCount(races: seq<string>, threshold: int, atkBonus: int)

  datatype Config = Config(
    name: string,
    kind: Kind,
    timing: Timing,
    passive: bool,
    needsTarget: bool,
    targetFilter: Option<TargetFilter>,
    effects: Option<seq<Atom>>,
    canReposition: bool,
    raceCount: Option<RaceCount>,
    description: Option<string>)

  /** `amount || baseAmount`: a missing or zero `amount` falls back to
      `baseAmount`. */
  function EffectiveAmount(amount: Option<int>, baseAmount: Option<int>): (r: Option<int>)
    ensures amount.Some? && amount.value != 0 ==> r == amount
    ensures (amount.None? || amount.value == 0) ==> r == baseAmount
  {
    if amount.Some? && amount.value != 0 then amount else baseAmount
  }

  /** A step the model can run: a modify step whose effective amount is
      defined (the source would otherwise add `undefined`, yielding NaN). */
  predicate Runnable(a: Atom)
  {
    match a
    case ModifyAtk(amount, baseAmount, _, _) => EffectiveAmount(amount, baseAmount).Some?
    case ModifyHp(amount, baseAmount, _, _) => EffectiveAmount(amount, baseAmount).Some?
    case _ => true
  }

  predicate ValidConfig(c: Config)
  {
    c.effects.Some? ==> forall k :: 0 <= k < |c.effects.value| ==> Runnable(c.effects.value[k])
  }

  predicate ValidCatalog(cat: map<int, Config>)
  {
    forall id :: id in cat ==> ValidConfig(cat[id])
  }

  // ---------------------------------------------------------------------
  // Filters used by the built-in entries
  // ---------------------------------------------------------------------

  const SelectedTarget: TargetFilter := TargetFilter(Some(Selected), None, None, None, None, None)
  const SelfTarget: TargetFilter := TargetFilter(Some(SelfCard), None, None, None, None, None)

  function FieldOf(scope: Scope): TargetFilter
  {
    TargetFilter(None, Some(scope), Some(OnBattlefield), None, None, None)
  }

  function RaceIs(races: seq<string>): Option<Condition>
  {
    Some(Condition(Some(races), None, None))
  }

  /** A played card's entry: `onPlay`, not passive, no reposition flag. */
  function Played(name: string, kind: Kind, target: Option<Scope>, effects: seq<Atom>): Config
  {
    Config(name, kind, OnPlay, false, target.Some?,
           if target.Some? then Some(FieldOf(target.value)) else None,
           Some(effects), false, None, None)
  }

  function Passive(name: string, timing: Timing, effects: Option<seq<Atom>>, canReposition: bool, rc: Option<RaceCount>): Config
  {
    Config(name, Battlefield, timing, true, false, None, effects, canReposition, rc, None)
  }

  const OathSword: Config :=
    Played("誓言之剑", Support, Some(BothSides),
      [ConditionalModifyAtk(2, 1, RaceIs(["军队", "平民", "骷髅"]), SelectedTarget)])

  const AlchemistByproduct: Config :=
    Played("炼金术师的副产品", Support, Some(BothSides),
      [ConditionalModifyHp(3, 1, RaceIs(["法术"]), SelectedTarget)])

  const ElfCount: RaceCount := RaceCount(["森林", "奇珍"], 2, 2)

  /** The built-in configuration table. */
  const BuiltinCatalog: map<int, Config> := map[
    71 := OathSword,
    72 := OathSword,
    73 := AlchemistByproduct,
    74 := AlchemistByproduct,
    84 := Played("恐惧之哨", Support, Some(OpponentSide),
            [ModifyAtk(Some(-3), None, SelectedTarget, None)]),
    85 := Played("互助", Support, None,
            [ConditionalModifyHp(2, 1, RaceIs(["平民", "奇珍"]), FieldOf(SelfSide))]),
    86 := Played("战意", Support, None,
            [ConditionalModifyAtk(2, 1, RaceIs(["军队"]), FieldOf(SelfSide))]),
    97 := Played("修城", Support, None,
            [ModifyHp(Some(4), None, FieldOf(BothSides).(race := Some(["建筑"])), None)]),
    13 := Played("赐予生命", Miracle, None, [PlayerHeal(13, Some(SelfSide))]),
    1 := Played("上帝", Miracle, None,
           [RemoveDebuffs(FieldOf(SelfSide)),
            ModifyHp(Some(3), None, FieldOf(SelfSide), None),
            PlayerHeal(3, Some(SelfSide))]),
    2 := Played("极寒", Miracle, None, [Freeze(2, FieldOf(OpponentSide))]),
    4 := Played("上帝之指", Miracle, None, [CascadeDamage(10)]),
    8 := Played("处决", Miracle, None, [ConditionalKillPlayer(7)]),
    9 := Played("末日", Miracle, None, [ClearField(Some(BothSides), None)]),
    89 := Played("神旨", Support, Some(BothSides), [KillCard(SelectedTarget)]),
    92 := Played("征税", Support, None,
            [GainCoins(1, Some(Atoms.CoinBonus(Condition(Some(["贵族", "罪犯"]), None, None), Some(2))))]),
    16 := Passive("狼人", OnAfterBattle, Some([Unknown("checkSurvivalAndAct")]), false, None),
    28 := Passive("空间法师", PassiveTiming, None, true, None),
    29 := Passive("精灵", PassiveTiming, None, false, Some(ElfCount)),
    30 := Passive("精灵", PassiveTiming, None, false, Some(ElfCount)),
    41 := Passive("高等精灵", OnTurnStart,
            Some([ModifyHp(Some(1), None, SelfTarget, None), ModifyAtk(Some(2), None, SelfTarget, None)]), false, None)
  ]

  /** Every step of the built-in table can be run: each modify step gives
      an explicit non-zero `amount`. */
  lemma BuiltinCatalogValid()
    ensures ValidCatalog(BuiltinCatalog)
  {
  }

  /** The configured card ids. */
  lemma BuiltinIds()
    ensures BuiltinCatalog.Keys == {1, 2, 4, 8, 9, 13, 16, 28, 29, 30, 41, 71, 72, 73, 74, 84, 85, 86, 89, 92, 97}
  {
  }
}
