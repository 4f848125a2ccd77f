# Card effect engine — a Dafny model

This project models the card-effect rules engine of a two-player lane card
game (`cardEffects.js`) together with three small helpers of `shared.js`.
A card id selects a declarative configuration from the effect catalog. The
configuration lists effect steps, and each step names one of thirteen
*effect atoms* with its parameters. The dispatcher `EffectEngine.trigger`
checks the configuration and the selected target, then runs the steps one
after another over a copy of the game state.

The game state has two players, red and blue. Each holds health, coins,
four battlefield lanes (each empty or holding a card), buildings and a
hand. The shared decks and a discard pile sit alongside them.

The model is functional:

- A card is addressed by a `Slot`: a battlefield lane or a hand position of
  one side.
- `FindTargets` returns slots, not card references.
- An atom is a pure function from its parameters, the effect context and a
  state to a new state plus the log events it emits. The source mutates
  card objects in place; here the new card is written back into its slot.
- The effect catalog is a `map<int, Config>` whose steps come from a closed
  `Atom` datatype, one variant per atom carrying exactly the parameters the
  dispatcher passes.

Modules follow the source's structure:

- `Wrappers`: optional values and results.
- `Seqs`: filtering, subsequences, duplicate-freedom.
- `Cards`: card templates and instances, `createCard`, `getCardImagePath`.
- `Shuffle`: `shuffleArray`.
- `Board`: the state, slots, lane sweeps and log events.
- `Targeting`: `findTargets`, `checkCondition`.
- `Atoms`: the thirteen effect atoms.
- `Catalog`: the configuration types and the built-in table.
- `Engine`: `trigger` and the read-only queries.
- `Scenarios`: properties of the built-in table and worked examples.

`conditionalKillPlayer` only sets the opponent's health to 0; no victory
flag is raised. `trigger` has no stage for a UI interaction mode: the
`canReposition` flag of card 28 is carried as data, and the card's missing
step list is the engine's one failure.

## Model

| member | source | states |
|---|---|---|
| Targeting.CheckCondition | cardEffects.js:114-136 | A missing condition holds. Otherwise the card passes iff every present part holds: either race tag is listed, the rarity is listed, the type is equal. |
| Targeting.FindTargets | cardEffects.js:20-106 | `'selected'` gives exactly the re-bound target, or nothing. `'self'` gives exactly the lanes whose card has the playing card's instance id. Otherwise a slot is returned iff it is a candidate of the named players and zone and passes the race, rarity and type parts. An absent or unknown player gives nothing. There are never duplicates. |
| Targeting.FindTargetsIsSubseq | cardEffects.js:60-102 | Without a special mode the result is a subsequence of the candidates (lane order, red before blue): the narrowing steps only delete. |
| Targeting.BothSidesRedThenBlue | cardEffects.js:60-102 | For `'both'`, the result is the red side's result followed by the blue side's. |
| Targeting.NarrowerThanRace | cardEffects.js:83-102 | Adding the rarity and type parts to a race filter yields a subsequence of the race-only result. |
| Targeting.NarrowerThanRarity | cardEffects.js:83-102 | The full filter's result is a subsequence of the rarity-only result. |
| Targeting.NarrowerThanKind | cardEffects.js:83-102 | The full filter's result is a subsequence of the type-only result. |
| Targeting.FilterNarrowing | cardEffects.js:83-102 | Combining race, rarity and type never selects more cards than any one of them alone. |
| Targeting.ZoneSlots | cardEffects.js:68-78 | A slot is collected iff it belongs to the side, holds a card and lies in the zone: a lane for an absent location or `'battlefield'`, a hand slot for `'hand'`, nothing for any other location. Slots come in lane or hand order, each once. |
| Targeting.Candidates | cardEffects.js:60-78 | A slot is a candidate iff its side is one the filter's player names (`'self'`, `'opponent'`, red and blue for `'both'`, none otherwise), it holds a card and it lies in the filter's zone. Red slots come before blue ones, each side in index order, each slot once. |
| Targeting.LanesWithId | cardEffects.js:31-38 | The `'self'` scan: exactly the lanes on either side whose card has the given instance id, red before blue, in lane order, each once. |
| Board.OccupiedLanes | cardEffects.js:70 | `battlefield.filter(c => c !== null)` as slots: exactly the occupied lanes of the side, in increasing lane order, each once. |
| Board.SweepIds | cardEffects.js:308-316 | The lane map of a kill or clear: a lane is emptied iff its card's instance id is among the swept ids; the lane count does not change. |
| Atoms.EachTarget | cardEffects.js:154-165 | The `targets.forEach` mutation loop: afterwards each target slot holding a card holds the step applied to that card, every other slot is unchanged, and only cards change. |
| Atoms.ModifyAtk | cardEffects.js:149-169 | Every target meeting the optional condition gains exactly `amount` attack and changes in nothing else. Every other slot is unchanged. Players, decks and pile are untouched. |
| Atoms.ModifyHp | cardEffects.js:177-195 | Every target meeting the condition gains `amount` health. Its ceiling becomes `max(old ceiling, new health)`, so the ceiling never drops and is at least the health. Other slots are unchanged. |
| Atoms.AddHp | cardEffects.js:187-188 | The health change and ceiling update of one card. |
| Atoms.BoostAtk | cardEffects.js:212-218 | One card gains base plus the bonus it earns; a zero total leaves it as it was. |
| Atoms.BoostHp | cardEffects.js:242-247 | One card's health moves by base plus earned bonus, with the ceiling following. A zero total leaves the card, ceiling included, unchanged. |
| Atoms.ConditionalModifyAtk | cardEffects.js:204-231 | Each target gains exactly `baseAmount + (checkCondition ? bonusAmount : 0)` attack. Non-targets are unchanged. |
| Atoms.ConditionalModifyHp | cardEffects.js:236-259 | Each target's health moves by `baseAmount` plus its earned bonus, with the ceiling rule of `modifyHp`. A target whose total is 0 is untouched. Non-targets are unchanged. |
| Atoms.PlayerHeal | cardEffects.js:266-277 | `'self'` heals the acting player; any other value, absent included, heals the opponent. Only that player's health changes, with no clamping. |
| Atoms.PlayerDamage | cardEffects.js:284-294 | As `playerHeal`, subtracting. Health may go below zero. |
| Atoms.KillOne | cardEffects.js:305-318 | For one victim, every lane on either side holding its instance id is emptied. The cards are appended to the discard pile, red lanes first. Nothing else changes. |
| Atoms.KillAll | cardEffects.js:305-318 | Over all victims, lanes end up swept of every victim id. The pile is the old pile followed by the swept cards in push order: victim by victim, red lanes then blue lanes holding its id, in lane order, an id already swept adding nothing. As a multiset it gains exactly the swept cards. |
| Atoms.KillOrderAfterSweep | cardEffects.js:305-318 | Reading the push order off lanes an earlier kill already swept equals reading it off the original lanes with that kill's ids counted as swept. |
| Atoms.KillCard | cardEffects.js:300-322 | Lane counts, hands, health and coins are unchanged. A lane is emptied iff its card's id is a target's id; every other lane keeps its card. The pile is the old pile followed by the removed cards in push order (target by target, red lanes then blue, in lane order), and as a multiset it gains exactly the removed cards. |
| Atoms.Swept | cardEffects.js:333-339 | The cards a side loses: exactly the non-null lane cards with neither race tag in `exceptRace` (all of them without a list). |
| Atoms.ClearSide | cardEffects.js:333-352 | One side's removable cards are appended to the pile in lane order. Lanes holding their ids are emptied. The other side and all off-board fields are unchanged. |
| Atoms.ClearField | cardEffects.js:328-360 | `'self'` or `'opponent'` clears that side; anything else, an absent filter included, clears red then blue. Per cleared side: lane count kept, removable cards gone, a surviving card stays in its lane. Uncleared sides are unchanged. The pile gains exactly the swept cards in order. |
| Atoms.ClearFieldSparesExcepted | cardEffects.js:335-350 | On a cleared side with unique instance ids, a card whose race is in `exceptRace` keeps its lane. |
| Atoms.SweepSpares | cardEffects.js:345-350 | With unique ids, the id sweep leaves a non-removable card in place. |
| Atoms.Freeze | cardEffects.js:367-379 | Every target's frozen counter is set to `turns`, replacing any earlier value. Every other slot, including a target slot holding no card, is unchanged. |
| Atoms.RemoveDebuffs | cardEffects.js:417-433 | Every target ends up not frozen, with all other fields unchanged. It changes iff it was frozen (a non-zero counter). Every other slot, including a target slot holding no card, is unchanged. |
| Atoms.AnyLaneMeets | cardEffects.js:390-396 | True iff some lane holds a card meeting the condition. |
| Atoms.CoinsGranted | cardEffects.js:386-402 | The condition's `bonus` replaces `amount` iff the condition has a bonus and some card on either battlefield meets it. |
| Atoms.GainCoins | cardEffects.js:385-411 | Only the acting player's coins change, by the granted amount. |
| Atoms.ConditionalKillPlayer | cardEffects.js:439-454 | Only the opponent can change. At or below the threshold their health becomes 0. The state is unchanged iff their health is above the threshold (or already 0). |
| Atoms.OccupiedFrom | cardEffects.js:463 | The occupied lane indices from `k`, ascending. |
| Atoms.InsertRanked | cardEffects.js:466 | Insertion keeps the ranking by health (descending, ties in lane order) and adds exactly the one index. |
| Atoms.SortByHp | cardEffects.js:466 | A permutation of the occupied indices, ranked by health descending and stable. |
| Atoms.CascadeOrder | cardEffects.js:463-466 | Every occupied opponent lane exactly once, by health descending, ties in lane order. |
| Atoms.RankDamage | cardEffects.js:469 | The damage at rank `k` is `max(1, baseDamage - k)`: at least both, and equal to one of them. |
| Atoms.HitRanks | cardEffects.js:468-476 | The card at rank `k` loses exactly `max(1, baseDamage - k)` health and nothing else. Empty lanes stay empty. |
| Atoms.CascadeDamage | cardEffects.js:460-481 | Only the opponent's lanes change. The card at rank `k` loses exactly `max(1, baseDamage - k)`, so each card loses at least 1 and keeps its lane. The acting side's lanes, both players' health and coins, hands and decks are unchanged. |
| Catalog.EffectiveAmount | cardEffects.js:1052 | `amount \|\| baseAmount`: a present non-zero `amount` is used; a missing or zero one falls through to `baseAmount`. |
| Catalog.BuiltinCatalogValid | cardEffects.js:491-957 | Every modify step of the built-in table has a defined effective amount. |
| Catalog.BuiltinIds | cardEffects.js:491-957 | The table configures exactly cards 1, 2, 4, 8, 9, 13, 16, 28, 29, 30, 41, 71-74, 84-86, 89, 92 and 97. |
| Engine.RunAtom | cardEffects.js:1028-1105 | A step naming no known atom leaves the state and logs one unimplemented-atom line. The player atoms never touch the discard pile. |
| Engine.AtomKeeps | cardEffects.js:142-485 | Every atom keeps decks, turn, phase, buildings, lane and hand counts, and only appends to the discard pile. No atom lifts a card's health above its ceiling. |
| Engine.RunChain | cardEffects.js:1028-1105 | Running the steps in order keeps that layout and the health-ceiling invariant. |
| Engine.ChainAppend | cardEffects.js:1028-1105 | Running `xs + ys` runs `xs`, then `ys` on what `xs` left, and the logs concatenate. |
| Engine.UnknownStepSkipped | cardEffects.js:1031-1036 | Inserting a step with an unknown atom name anywhere in a chain leaves the final state unchanged: later steps still run. Only one log line is added. |
| Engine.LastWithId | cardEffects.js:999-1006 | The last lane holding the id, or none iff no lane does. |
| Engine.Rebind | cardEffects.js:996-1019 | The target is found iff some lane on either battlefield holds its instance id. The result holds that id and is the last match, red scanned before blue. |
| Engine.Trigger | cardEffects.js:975-1108 | An unknown id returns the state with no log. A target absent from both battlefields returns the original state. A needed but missing target returns it too. A configuration without a step list is the one failure. Otherwise the steps run in order on the re-bound context. Every result keeps the layout and health-ceiling invariants. |
| Engine.SelectedTargetRebound | cardEffects.js:996-1016 | When the chain runs, the selected card is re-bound to a lane holding its instance id. |
| Engine.NeedsTarget | cardEffects.js:1115-1118 | A configured card needs a target iff its `needsTarget` flag is set; an unconfigured card needs none. |
| Engine.NeedsTargetMeansRefusal | cardEffects.js:1022-1025 | A card that needs a target, played without one, leaves any state unchanged. |
| Engine.GetTargetFilter | cardEffects.js:1125-1128 | The configured filter, or none for an unknown card. |
| Engine.IsValidTarget | cardEffects.js:1137-1157 | Rejects iff the card needs a target, has a battlefield filter over `'both'` or `'self'`, and the target's id is on neither battlefield. An `'opponent'` filter accepts any card. |
| Engine.RejectedTargetIsLost | cardEffects.js:1137-1157 | A target `isValidTarget` rejects is one `trigger` reports lost, returning the state unchanged. |
| Engine.GetDescription | cardEffects.js:1164-1170 | The configured description, else the empty string. |
| Engine.InsertSorted | cardEffects.js:1176-1178 | Inserting a new key keeps the list strictly increasing and adds exactly that key. |
| Engine.GetConfiguredCards | cardEffects.js:1176-1178 | Exactly the configured ids, each once, ascending (the order `Object.keys` lists integer keys in). |
| Scenarios.BuiltinNeedsTarget | cardEffects.js:491-957 | Exactly cards 71-74, 84 and 89 need a target. |
| Scenarios.BuiltinTargetFilter | cardEffects.js:491-957 | A built-in card has a target filter iff it needs a target. |
| Scenarios.BuiltinDescriptions | cardEffects.js:1164-1170 | No built-in card has a description, so every id reads as the empty string. |
| Scenarios.OpponentFilterAcceptsAnyCard | cardEffects.js:600-618 | Card 84's opponent-only filter accepts every card, on a battlefield or not. |
| Scenarios.WerewolfStepIsSkipped | cardEffects.js:875-888 | Card 16's only step names a missing atom: the state comes back unchanged with one log line. |
| Scenarios.PassiveEntriesFault | cardEffects.js:893-928 | Cards 28, 29 and 30 have no step list; triggering them without a target is the engine's failure. |
| Scenarios.AcceptedButLost | cardEffects.js:1137-1157 | `isValidTarget` accepts for card 84 a card on no battlefield, and `trigger` then reports it lost. |
| Scenarios.OrderOfThree | cardEffects.js:463-466 | Three occupied lanes, the first healthiest and the second weakest, are hit in the order 0, 2, 1. |
| Scenarios.CascadeOnThree | cardEffects.js:772-783 | `cascadeDamage(10)`, the step card 4 configures, run directly on such lanes, takes 10, 8 and 9 health and leaves the caster's lanes alone. |
| Scenarios.CascadeExample | cardEffects.js:460-481 | Opponent lanes at 20, 5 and 12 health end at 10, -3 and 3. |
| Scenarios.ExecutionThreshold | cardEffects.js:789-802 | Card 8 sets an opponent at 7 health to 0 and leaves one at 8 alone. |
| Scenarios.OathSwordBonus | cardEffects.js:496-518 | Card 71 on a lone selected card adds 2 attack, plus 1 when the card is 军队, 平民 or 骷髅. |
| Scenarios.TaxBonus | cardEffects.js:851-866 | On every board, card 92 grants the acting side 2 coins when a 贵族 or 罪犯 card is on either battlefield, else 1, and changes nothing else. |
| Scenarios.TaxBonusForCriminal | cardEffects.js:851-866 | A lone 罪犯 card on the caster's own battlefield earns the 2-coin bonus. |
| Cards.CreateCard | shared.js:239-245 | Every template field is copied. The ceiling equals the template's health. The instance id is the one given. No frozen counter. |
| Cards.Digits | shared.js:252 | The decimal rendering of a number is a non-empty string of digits with no leading zero (except "0" itself). |
| Cards.DigitsOfParse | shared.js:252 | A digit string without a leading zero is the rendering of the number it reads as. |
| Cards.LiteralUnique | shared.js:252 | An integer literal (plain numeral, or minus before a non-zero numeral) that reads as `n` is exactly the rendering of `n`. |
| Cards.ImagePathCanonical | shared.js:252 | A path with the image prefix and suffix whose middle is an integer literal reading as `id` is exactly the image path of `id`. |
| Cards.CardImagePath | shared.js:252 | The path starts with `card_images/`, ends with `.png`, and holds an integer literal (no padding, no "-0") in between. |
| Cards.ParseIntRoundTrip | shared.js:252 | The rendered id reads back as the id. |
| Cards.ImagePathRoundTrip | shared.js:252 | The id can be recovered from its image path. |
| Cards.ImagePathInjective | shared.js:252 | Distinct ids never share an image path. |
| Shuffle.SwapIndex | shared.js:258 | The swap partner `floor(r * (i + 1))` of a draw in [0, 1) is at most `i`. |
| Shuffle.ShuffleArray | shared.js:255-262 | The result has the input's length and is a permutation of it (equal multisets). Inputs of length at most 1 come back unchanged. |

## Left out

- Console tracing and the wording of log messages. The log is a sequence of `Event` values saying what was reported, not how.
- `Math.random`. The instance id of `createCard` and the draws of `shuffleArray` are parameters.
- The JSON deep copy in `trigger`. Values are immutable, so every abort path trivially returns the given state.
- `Engine.Trigger`: a selected target whose lane an earlier step of the same chain emptied. The source then mutates the detached card object and logs its change. The model finds the lane empty and skips it. The discard pile then differs: the source's discarded card carries the later change, the model's does not, and the logs differ too. No built-in card has such a chain.
- Effect amounts that are not integers. A modify step with neither `amount` nor `baseAmount` would add `undefined` (NaN) in the source. `Trigger` requires every step of the catalog to have a defined amount, which the built-in table meets.
- The final `else` of the dispatcher, and atom names inherited from `Object.prototype`. The closed `Atom` datatype makes both impossible: any other name is `Unknown`.
- A filter or condition whose `race` or `rarity` is a single string. It is modelled as the one-element list it is treated as.
- `playerHeal` and `playerDamage` with a missing filter. The source throws when reading `filter.player`; the model treats it like any other non-`'self'` value.
- Filter fields the model cannot hold. An unknown `target` mode behaves as absent, and an unknown `player` as absent.
- `countRace` and `canReposition`. No code reads them, so they are data only.
- The `condition` field of card 16's step. Nothing reads it, because the atom does not exist.
- Card ids of 1e21 and above, which JavaScript writes in exponent form. `Cards.Digits` writes every natural number in plain decimal; all card ids are small.
- The width of JavaScript numbers. Health, attack, ceilings, coins, frozen counters and effect amounts are doubles in the source, exact only up to 2^53. The model holds them as unbounded integers. Nothing in the engine depends on values near that bound.
- Card costs, which the model holds as `real`. The shuffle's scaling uses exact reals rather than floating point.
- `getConfiguredCards` with negative or non-integer keys. All catalog keys are non-negative integers, which `Object.keys` lists in ascending order.
- `Atoms.ClearFieldSparesExcepted`: requires the cleared side's instance ids to be unique. The source sweeps lanes by id, so a duplicate id of a removed card would empty the excepted card's lane too. Nothing in the source guarantees unique ids.
- `Shuffle.ShuffleArray`: states that the result is a permutation, not which permutation the given draws produce.
- The game-loop side of conditional kills. No skip-turn or immediate-victory flag is set anywhere in the engine, and none is modelled. `conditionalKillPlayer` only sets health to 0.
- Everything outside the engine and the three helpers: the UI (`gameUI.js`), sound, CSV loading, icons, the script loader and `config.js`.
