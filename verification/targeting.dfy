/** Target resolution (`findTargets`) and condition checking
    (`checkCondition`) of cardEffects.js. Filters and conditions are the
    declarative objects of the effect catalog, with every optional field an
    `Option`. A race or rarity given as a single string in the source is the
    one-element list here. */
module Targeting {
  import opened Wrappers
  import opened Cards
  import opened Seqs
  import opened Board

  /** `filter.target`: the special modes. Any other value behaves as absent. */
  datatype Special = SelfCard | Selected

  /** `filter.player`. Absent and unrecognised values are both `None`, since
      every reader of the field treats them alike. */
  datatype Scope = SelfSide | OpponentSide | BothSides

  /** `filter.location`. Absent means the battlefield; an unrecognised value
      (`Elsewhere`) selects nothing. */
  datatype Location = OnBattlefield | InHandZone | Elsewhere

  datatype TargetFilter = TargetFilter(
    target: Option<Special>,
    player: Option<Scope>,
    location: Option<Location>,
    race: Option<seq<string>>,
    rarity: Option<seq<string>>,
    kind: Option<Kind>)

  datatype Condition = Condition(
    race: Option<seq<string>>,
    rarity: Option<seq<string>>,
    kind: Option<Kind>)

  /** The effect context: acting side, the card being played, and the
      selected target, already re-bound to a lane of the working state. */
  datatype Ctx = Ctx(player: Side, card: Option<Card>, target: Option<Slot>)

  /** Either race tag of the card is listed. */
  predicate HasRace(c: Card, races: seq<string>)
  {
    c.stRace in races || c.ndRace in races
  }

  /** `checkCondition`: a missing condition always holds; otherwise each
      present part is checked in turn and the first failing part rejects. */
  function CheckCondition(c: Card, cond: Option<Condition>): (ok: bool)
    ensures cond.None? ==> ok
    ensures cond.Some? ==>
      (ok <==> && (cond.value.race.Some? ==> HasRace(c, cond.value.race.value))
               && (cond.value.rarity.Some? ==> c.rarity in cond.value.rarity.value)
               && (cond.value.kind.Some? ==> c.kind == cond.value.kind.value))
  {
    match cond
    case None => true
    case Some(k) =>
      if k.race.Some? && !HasRace(c, k.race.value) then false
      else if k.rarity.Some? && c.rarity !in k.rarity.value then false
      else if k.kind.Some? && c.kind != k.kind.value then false
      else true
  }

  /** The condition a filter's race/rarity/type fields amount to. */
  function ConditionOf(f: TargetFilter): Condition
  {
    Condition(f.race, f.rarity, f.kind)
  }

  /** The sides a filter names, red before blue for both. */
  function ScopeSides(scope: Option<Scope>, player: Side): (r: seq<Side>)
    ensures NoDup(r)
  {
    match scope
    case Some(SelfSide) => [player]
    case Some(OpponentSide) => [Opponent(player)]
    case Some(BothSides) => [Red, Blue]
    case None => []
  }

  /** The slot `s` lies in the zone `loc` names: a lane when the location is
      absent or the battlefield, a hand slot for the hand, nothing for any
      other location. */
  predicate InZone(s: Slot, loc: Option<Location>)
  {
    loc != Some(Elsewhere) && (s.InHand? <==> loc == Some(InHandZone))
  }

  /** The slots one side contributes for a location: every occupied slot of
      that side in the zone, in scan order. */
  function ZoneSlots(st: GameState, loc: Option<Location>, side: Side): (r: seq<Slot>)
    ensures NoDup(r)
    ensures Sorted(BoardBefore, r)
    ensures forall s :: s in r <==> s.side == side && CardAt(st, s).Some? && InZone(s, loc)
  {
    match loc
    case None => OccupiedLanes(st, side)
    case Some(OnBattlefield) => OccupiedLanes(st, side)
    case Some(InHandZone) => HandSlots(st, side)
    case Some(Elsewhere) => []
  }

  /** Everything the named players hold in the named zone, before narrowing:
      every occupied slot of a named side in the zone, red before blue. */
  function Candidates(st: GameState, f: TargetFilter, ctx: Ctx): (r: seq<Slot>)
    ensures NoDup(r)
    ensures Sorted(BoardBefore, r)
    ensures forall s :: s in r <==>
      s.side in ScopeSides(f.player, ctx.player) && CardAt(st, s).Some? && InZone(s, f.location)
  {
    var sides := ScopeSides(f.player, ctx.player);
    if |sides| == 1 then ZoneSlots(st, f.location, sides[0])
    else if |sides| == 2 then
      var red, blue := ZoneSlots(st, f.location, Red), ZoneSlots(st, f.location, Blue);
      NoDupConcat(red, blue);
      assert forall i, j :: 0 <= i < |red| && 0 <= j < |blue| ==> BoardBefore(red[i], blue[j]) by {
        forall i, j | 0 <= i < |red| && 0 <= j < |blue| ensures BoardBefore(red[i], blue[j]) {
          assert red[i] in red && blue[j] in blue;
        }
      }
      SortedConcat(BoardBefore, red, blue);
      red + blue
    else []
  }

  predicate RaceOk(st: GameState, s: Slot, races: seq<string>)
  {
    CardAt(st, s).Some? && HasRace(CardAt(st, s).value, races)
  }

  predicate RarityOk(st: GameState, s: Slot, rarities: seq<string>)
  {
    CardAt(st, s).Some? && CardAt(st, s).value.rarity in rarities
  }

  predicate KindOk(st: GameState, s: Slot, k: Kind)
  {
    CardAt(st, s).Some? && CardAt(st, s).value.kind == k
  }

  /** The card at `s` exists and meets the filter's race/rarity/type parts. */
  predicate Passes(st: GameState, s: Slot, f: TargetFilter)
  {
    CardAt(st, s).Some? && CheckCondition(CardAt(st, s).value, Some(ConditionOf(f)))
  }

  function ByRace(st: GameState, f: TargetFilter, xs: seq<Slot>): seq<Slot>
  {
    if f.race.Some? then Filter(s => RaceOk(st, s, f.race.value), xs) else xs
  }

  function ByRarity(st: GameState, f: TargetFilter, xs: seq<Slot>): seq<Slot>
  {
    if f.rarity.Some? then Filter(s => RarityOk(st, s, f.rarity.value), xs) else xs
  }

  function ByKind(st: GameState, f: TargetFilter, xs: seq<Slot>): seq<Slot>
  {
    if f.kind.Some? then Filter(s => KindOk(st, s, f.kind.value), xs) else xs
  }

  /** The lanes, red then blue, holding a card with the given instance id. */
  function LanesWithId(st: GameState, id: string): (r: seq<Slot>)
    ensures NoDup(r)
    ensures Sorted(BoardBefore, r)
    ensures forall s :: s in r <==> s.Lane? && CardAt(st, s).Some? && CardAt(st, s).value.instanceId == id
  {
    var red, blue := LaneSlots(st, Red), LaneSlots(st, Blue);
    NoDupConcat(red, blue);
    SortedConcat(BoardBefore, red, blue);
    var all := red + blue;
    FilterNoDup(s => CardAt(st, s).Some? && CardAt(st, s).value.instanceId == id, all);
    FilterSorted(s => CardAt(st, s).Some? && CardAt(st, s).value.instanceId == id, BoardBefore, all);
    assert forall s: Slot :: s.Lane? && CardAt(st, s).Some? ==> s in all by {
      forall s: Slot | s.Lane? && CardAt(st, s).Some? ensures s in all {
        if s.side == Red { assert s == red[s.index]; } else { assert s == blue[s.index]; }
      }
    }
    Filter(s => CardAt(st, s).Some? && CardAt(st, s).value.instanceId == id, all)
  }

  lemma StagesNoDup(st: GameState, f: TargetFilter, xs: seq<Slot>)
    requires NoDup(xs)
    ensures NoDup(ByRace(st, f, xs)) && NoDup(ByRarity(st, f, xs)) && NoDup(ByKind(st, f, xs))
  {
    if f.race.Some? { FilterNoDup(s => RaceOk(st, s, f.race.value), xs); }
    if f.rarity.Some? { FilterNoDup(s => RarityOk(st, s, f.rarity.value), xs); }
    if f.kind.Some? { FilterNoDup(s => KindOk(st, s, f.kind.value), xs); }
  }

  /** `findTargets`. */
  function FindTargets(st: GameState, f: TargetFilter, ctx: Ctx): (r: seq<Slot>)
    ensures NoDup(r)
    ensures f.target == Some(Selected) ==> r == (if ctx.target.Some? then [ctx.target.value] else [])
    ensures f.target == Some(SelfCard) ==>
      forall s :: s in r <==> && ctx.card.Some? && ctx.card.value.instanceId != ""
                              && s.Lane? && CardAt(st, s).Some?
                              && CardAt(st, s).value.instanceId == ctx.card.value.instanceId
    ensures f.target.None? ==>
      forall s :: s in r <==> s in Candidates(st, f, ctx) && Passes(st, s, f)
    ensures f.target != Some(Selected) ==> forall s :: s in r ==> CardAt(st, s).Some?
    ensures f.target.None? && f.player.None? ==> r == []
  {
    match f.target
    case Some(SelfCard) =>
      if ctx.card.Some? && ctx.card.value.instanceId != "" then LanesWithId(st, ctx.card.value.instanceId)
      else []
    case Some(Selected) =>
      if ctx.target.Some? then [ctx.target.value] else []
    case None =>
      var cands := Candidates(st, f, ctx);
      var a := ByRace(st, f, cands);
      var b := ByRarity(st, f, a);
      StagesNoDup(st, f, cands);
      StagesNoDup(st, f, a);
      StagesNoDup(st, f, b);
      ByKind(st, f, b)
  }

  // ---------------------------------------------------------------------
  // Properties of target resolution
  // ---------------------------------------------------------------------

  lemma StageIsSubseq(st: GameState, f: TargetFilter, xs: seq<Slot>)
    ensures IsSubseq(ByRace(st, f, xs), xs)
    ensures IsSubseq(ByRarity(st, f, xs), xs)
    ensures IsSubseq(ByKind(st, f, xs), xs)
  {
    SubseqRefl(xs);
    if f.race.Some? { FilterIsSubseq(s => RaceOk(st, s, f.race.value), xs); }
    if f.rarity.Some? { FilterIsSubseq(s => RarityOk(st, s, f.rarity.value), xs); }
    if f.kind.Some? { FilterIsSubseq(s => KindOk(st, s, f.kind.value), xs); }
  }

  /** Without a special mode the result keeps the candidates' order and only
      deletes from them: battlefield lanes in lane order, red before blue. */
  lemma FindTargetsIsSubseq(st: GameState, f: TargetFilter, ctx: Ctx)
    requires f.target.None?
    ensures IsSubseq(FindTargets(st, f, ctx), Candidates(st, f, ctx))
  {
    var c := Candidates(st, f, ctx);
    var a := ByRace(st, f, c);
    var b := ByRarity(st, f, a);
    StageIsSubseq(st, f, c);
    StageIsSubseq(st, f, a);
    StageIsSubseq(st, f, b);
    SubseqTrans(b, a, c);
    SubseqTrans(ByKind(st, f, b), b, c);
  }

  lemma NarrowerThanRace(st: GameState, f: TargetFilter, ctx: Ctx)
    requires f.target.None?
    ensures IsSubseq(FindTargets(st, f, ctx), FindTargets(st, f.(rarity := None, kind := None), ctx))
  {
    var c := Candidates(st, f, ctx);
    var a := ByRace(st, f, c);
    var b := ByRarity(st, f, a);
    StageIsSubseq(st, f, a);
    StageIsSubseq(st, f, b);
    assert Candidates(st, f.(rarity := None, kind := None), ctx) == c;
    SubseqTrans(ByKind(st, f, b), b, a);
  }

  lemma NarrowerThanRarity(st: GameState, f: TargetFilter, ctx: Ctx)
    requires f.target.None?
    ensures IsSubseq(FindTargets(st, f, ctx), FindTargets(st, f.(race := None, kind := None), ctx))
  {
    var c := Candidates(st, f, ctx);
    var a := ByRace(st, f, c);
    var b := ByRarity(st, f, a);
    StageIsSubseq(st, f, c);
    StageIsSubseq(st, f, b);
    assert Candidates(st, f.(race := None, kind := None), ctx) == c;
    if f.rarity.Some? {
      FilterMono(s => RarityOk(st, s, f.rarity.value), a, c);
    }
    SubseqTrans(ByKind(st, f, b), b, ByRarity(st, f, c));
  }

  lemma NarrowerThanKind(st: GameState, f: TargetFilter, ctx: Ctx)
    requires f.target.None?
    ensures IsSubseq(FindTargets(st, f, ctx), FindTargets(st, f.(race := None, rarity := None), ctx))
  {
    var c := Candidates(st, f, ctx);
    var a := ByRace(st, f, c);
    var b := ByRarity(st, f, a);
    StageIsSubseq(st, f, c);
    StageIsSubseq(st, f, a);
    assert Candidates(st, f.(race := None, rarity := None), ctx) == c;
    SubseqTrans(b, a, c);
    if f.kind.Some? {
      FilterMono(s => KindOk(st, s, f.kind.value), b, c);
    }
  }

  /** Applying the race, rarity and type parts together never selects more
      than applying any one of them alone: the combined result is a
      subsequence of each single-part result. */
  lemma FilterNarrowing(st: GameState, f: TargetFilter, ctx: Ctx)
    requires f.target.None?
    ensures |FindTargets(st, f, ctx)| <= |FindTargets(st, f.(rarity := None, kind := None), ctx)|
    ensures |FindTargets(st, f, ctx)| <= |FindTargets(st, f.(race := None, kind := None), ctx)|
    ensures |FindTargets(st, f, ctx)| <= |FindTargets(st, f.(race := None, rarity := None), ctx)|
  {
    var r := FindTargets(st, f, ctx);
    NarrowerThanRace(st, f, ctx);
    NarrowerThanRarity(st, f, ctx);
    NarrowerThanKind(st, f, ctx);
    SubseqLength(r, FindTargets(st, f.(rarity := None, kind := None), ctx));
    SubseqLength(r, FindTargets(st, f.(race := None, kind := None), ctx));
    SubseqLength(r, FindTargets(st, f.(race := None, rarity := None), ctx));
  }

  /** For `'both'`, the result is the red side's result followed by the blue
      side's: narrowing never mixes the two. */
  lemma BothSidesRedThenBlue(st: GameState, f: TargetFilter, ctx: Ctx)
    requires f.target.None? && f.player == Some(BothSides)
    ensures FindTargets(st, f, ctx)
         == FindTargets(st, f.(player := Some(SelfSide)), ctx.(player := Red))
          + FindTargets(st, f.(player := Some(SelfSide)), ctx.(player := Blue))
  {
    var red, blue := ZoneSlots(st, f.location, Red), ZoneSlots(st, f.location, Blue);
    assert Candidates(st, f, ctx) == red + blue;
    assert Candidates(st, f.(player := Some(SelfSide)), ctx.(player := Red)) == red;
    assert Candidates(st, f.(player := Some(SelfSide)), ctx.(player := Blue)) == blue;
    var a1, a2 := ByRace(st, f, red), ByRace(st, f, blue);
    if f.race.Some? { FilterConcat(s => RaceOk(st, s, f.race.value), red, blue); }
    assert ByRace(st, f, red + blue) == a1 + a2;
    var b1, b2 := ByRarity(st, f, a1), ByRarity(st, f, a2);
    if f.rarity.Some? { FilterConcat(s => RarityOk(st, s, f.rarity.value), a1, a2); }
    assert ByRarity(st, f, a1 + a2) == b1 + b2;
    if f.kind.Some? { FilterConcat(s => KindOk(st, s, f.kind.value), b1, b2); }
    assert ByKind(st, f, b1 + b2) == ByKind(st, f, b1) + ByKind(st, f, b2);
  }
}
