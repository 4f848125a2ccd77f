/** The game state the effect engine reads and writes: two players with four
    battlefield lanes and a hand each, the shared decks and the discard pile;
    addresses (`Slot`s) of the cards in it; and the log events atoms emit. */
module Board {
  import opened Wrappers
  import opened Cards
  import opened Seqs

  datatype Side = Red | Blue

  /** The other player (`player === 'red' ? 'blue' : 'red'`). */
  function Opponent(s: Side): Side
  {
    if s == Red then Blue else Red
  }

  datatype Player = Player(
    health: int,
    coins: int,
    battlefield: seq<Option<Card>>,
    buildings: seq<Option<Card>>,
    hand: seq<Card>)

  datatype GameState = GameState(
    red: Player,
    blue: Player,
    deck: seq<Card>,
    miracleDeck: seq<Card>,
    discardPile: seq<Card>,
    turn: int,
    phase: string)

  function PlayerOf(st: GameState, side: Side): Player
  {
    if side == Red then st.red else st.blue
  }

  /** Replaces one player's record, leaving everything else alone. */
  function WithPlayer(st: GameState, side: Side, p: Player): (r: GameState)
    ensures PlayerOf(r, side) == p
    ensures PlayerOf(r, Opponent(side)) == PlayerOf(st, Opponent(side))
    ensures SameShared(st, r)
  {
    if side == Red then st.(red := p) else st.(blue := p)
  }

  function Lanes(st: GameState, side: Side): seq<Option<Card>>
  {
    PlayerOf(st, side).battlefield
  }

  /** The state outside the two player records is the same. */
  predicate SameShared(a: GameState, b: GameState)
  {
    && a.deck == b.deck
    && a.miracleDeck == b.miracleDeck
    && a.discardPile == b.discardPile
    && a.turn == b.turn
    && a.phase == b.phase
  }

  /** Everything but `side`'s record is the same. */
  predicate OnlyPlayerChanged(a: GameState, b: GameState, side: Side)
  {
    SameShared(a, b) && PlayerOf(a, Opponent(side)) == PlayerOf(b, Opponent(side))
  }

  /** Only battlefield lanes and the discard pile may differ. */
  predicate SameOffBoard(a: GameState, b: GameState)
  {
    && a.deck == b.deck
    && a.miracleDeck == b.miracleDeck
    && a.turn == b.turn
    && a.phase == b.phase
    && SameOffBoardPlayer(a.red, b.red)
    && SameOffBoardPlayer(a.blue, b.blue)
  }

  predicate SameOffBoardPlayer(p: Player, q: Player)
  {
    p.health == q.health && p.coins == q.coins && p.buildings == q.buildings && p.hand == q.hand
  }

  // ---------------------------------------------------------------------
  // Card addresses
  // ---------------------------------------------------------------------

  /** Where a card sits: a battlefield lane or a hand position. */
  datatype Slot = Lane(side: Side, index: nat) | InHand(side: Side, index: nat)

  /** The card at a slot; `None` for an empty lane or an index out of range. */
  function CardAt(st: GameState, s: Slot): Option<Card>
  {
    match s
    case Lane(side, i) => if i < |Lanes(st, side)| then Lanes(st, side)[i] else None
    case InHand(side, i) => if i < |PlayerOf(st, side).hand| then Some(PlayerOf(st, side).hand[i]) else None
  }

  predicate SamePlayerShape(p: Player, q: Player)
  {
    && p.health == q.health
    && p.coins == q.coins
    && p.buildings == q.buildings
    && |p.battlefield| == |q.battlefield|
    && |p.hand| == |q.hand|
  }

  /** Only the cards held in lanes and hands may differ. */
  predicate SameExceptCards(a: GameState, b: GameState)
  {
    SameShared(a, b) && SamePlayerShape(a.red, b.red) && SamePlayerShape(a.blue, b.blue)
  }

  /** Writes a card back into an occupied slot (the JavaScript atoms mutate
      the card object in place); an empty or missing slot is left alone. */
  function SetCard(st: GameState, s: Slot, c: Card): (r: GameState)
    ensures SameExceptCards(st, r)
    ensures forall t :: CardAt(r, t) == (if t == s && CardAt(st, s).Some? then Some(c) else CardAt(st, t))
  {
    match s
    case Lane(side, i) =>
      var p := PlayerOf(st, side);
      if i < |p.battlefield| && p.battlefield[i].Some? then
        WithPlayer(st, side, p.(battlefield := p.battlefield[i := Some(c)]))
      else st
    case InHand(side, i) =>
      var p := PlayerOf(st, side);
      if i < |p.hand| then WithPlayer(st, side, p.(hand := p.hand[i := c])) else st
  }

  /** Two states that agree on their shape and on every slot are equal. */
  lemma StateExt(a: GameState, b: GameState)
    requires SameExceptCards(a, b)
    requires forall s :: CardAt(a, s) == CardAt(b, s)
    ensures a == b
  {
    forall side: Side
      ensures PlayerOf(a, side) == PlayerOf(b, side)
    {
      var p, q := PlayerOf(a, side), PlayerOf(b, side);
      forall i | 0 <= i < |p.battlefield| ensures p.battlefield[i] == q.battlefield[i] {
        assert CardAt(a, Lane(side, i)) == CardAt(b, Lane(side, i));
      }
      forall i | 0 <= i < |p.hand| ensures p.hand[i] == q.hand[i] {
        assert CardAt(a, InHand(side, i)) == CardAt(b, InHand(side, i));
      }
    }
    assert PlayerOf(a, Red) == PlayerOf(b, Red);
    assert PlayerOf(a, Blue) == PlayerOf(b, Blue);
  }

  // ---------------------------------------------------------------------
  // Scans over lanes and hands
  // ---------------------------------------------------------------------

  /** The order the engine scans slots in: red before blue, and within a
      side by increasing lane or hand index. */
  predicate BoardBefore(x: Slot, y: Slot)
  {
    if x.side == y.side then x.index < y.index else x.side == Red
  }

  /** Every lane address of one side, in lane order. */
  function LaneSlots(st: GameState, side: Side): (r: seq<Slot>)
    ensures |r| == |Lanes(st, side)|
    ensures forall i :: 0 <= i < |r| ==> r[i] == Lane(side, i)
    ensures NoDup(r)
    ensures Sorted(BoardBefore, r)
  {
    seq(|Lanes(st, side)|, i requires 0 <= i < |Lanes(st, side)| => Lane(side, i))
  }

  /** Every hand address of one side, in hand order. */
  function HandSlots(st: GameState, side: Side): (r: seq<Slot>)
    ensures |r| == |PlayerOf(st, side).hand|
    ensures forall i :: 0 <= i < |r| ==> r[i] == InHand(side, i)
    ensures NoDup(r)
    ensures Sorted(BoardBefore, r)
    ensures forall s :: s in r <==> s.InHand? && s.side == side && CardAt(st, s).Some?
  {
    seq(|PlayerOf(st, side).hand|, i requires 0 <= i < |PlayerOf(st, side).hand| => InHand(side, i))
  }

  /** The non-empty lanes of one side, in lane order (`battlefield.filter(c => c !== null)`). */
  function OccupiedLanes(st: GameState, side: Side): (r: seq<Slot>)
    ensures NoDup(r)
    ensures forall s :: s in r <==> s.Lane? && s.side == side && CardAt(st, s).Some?
    ensures Sorted(BoardBefore, r)
  {
    var all := LaneSlots(st, side);
    FilterNoDup(s => CardAt(st, s).Some?, all);
    FilterSorted(s => CardAt(st, s).Some?, BoardBefore, all);
    assert forall s: Slot :: s.Lane? && s.side == side && CardAt(st, s).Some? ==> s == all[s.index];
    Filter(s => CardAt(st, s).Some?, all)
  }

  /** The cards of the non-empty lanes, in lane order. */
  function NonNull(lanes: seq<Option<Card>>): (r: seq<Card>)
    ensures forall c :: c in r <==> Some(c) in lanes
    ensures |r| <= |lanes|
    decreases |lanes|
  {
    if lanes == [] then []
    else (if lanes[0].Some? then [lanes[0].value] else []) + NonNull(lanes[1..])
  }

  /** Empties every lane holding a card whose instance id is in `ids`. */
  function SweepIds(lanes: seq<Option<Card>>, ids: set<string>): (r: seq<Option<Card>>)
    ensures |r| == |lanes|
    ensures forall i :: 0 <= i < |r| ==>
      r[i] == (if lanes[i].Some? && lanes[i].value.instanceId in ids then None else lanes[i])
  {
    seq(|lanes|, i requires 0 <= i < |lanes| =>
      if lanes[i].Some? && lanes[i].value.instanceId in ids then None else lanes[i])
  }

  /** The cards `SweepIds` takes off the board, in lane order. */
  function DroppedIds(lanes: seq<Option<Card>>, ids: set<string>): (r: seq<Card>)
    ensures forall c :: c in r <==> Some(c) in lanes && c.instanceId in ids
    decreases |lanes|
  {
    if lanes == [] then []
    else
      var head := if lanes[0].Some? && lanes[0].value.instanceId in ids then [lanes[0].value] else [];
      head + DroppedIds(lanes[1..], ids)
  }

  /** Sweeping twice is sweeping once with both id sets. */
  lemma SweepSweep(lanes: seq<Option<Card>>, a: set<string>, b: set<string>)
    ensures SweepIds(SweepIds(lanes, a), b) == SweepIds(lanes, a + b)
  {
  }

  /** After a sweep, a second sweep only drops the ids the first missed. */
  lemma {:induction false} DroppedAfterSweep(lanes: seq<Option<Card>>, a: set<string>, b: set<string>)
    ensures DroppedIds(SweepIds(lanes, a), b) == DroppedIds(lanes, b - a)
    decreases |lanes|
  {
    if lanes != [] {
      assert SweepIds(lanes, a)[1..] == SweepIds(lanes[1..], a);
      DroppedAfterSweep(lanes[1..], a, b);
    }
  }

  /** Dropping by `a` and then by the rest of `b` drops, as a multiset,
      exactly the cards whose id is in `a + b`. */
  lemma {:induction false} DroppedSplit(lanes: seq<Option<Card>>, a: set<string>, b: set<string>)
    ensures multiset(DroppedIds(lanes, a)) + multiset(DroppedIds(lanes, b - a))
         == multiset(DroppedIds(lanes, a + b))
    decreases |lanes|
  {
    if lanes != [] {
      DroppedSplit(lanes[1..], a, b);
    }
  }

  /** Sweeping with the empty set changes nothing and drops nothing. */
  lemma {:induction false} SweepNothing(lanes: seq<Option<Card>>)
    ensures SweepIds(lanes, {}) == lanes
    ensures DroppedIds(lanes, {}) == []
    decreases |lanes|
  {
    if lanes != [] {
      SweepNothing(lanes[1..]);
    }
  }

  // ---------------------------------------------------------------------
  // Log events and atom outcomes
  // ---------------------------------------------------------------------

  /** How a conditional bonus was composed, when a bonus applied. */
  datatype BonusSplit = BonusSplit(base: int, bonus: int)

  /** One message sent to the log callback; the wording of the message is
      not modelled, only what it reports. */
  datatype Event =
    | AtkChanged(card: string, delta: int, split: Option<BonusSplit>, atk: int)
    | HpChanged(card: string, delta: int, split: Option<BonusSplit>, hp: int, maxHp: int)
    | PlayerHealed(side: Side, amount: int, health: int)
    | PlayerDamaged(side: Side, amount: int, health: int)
    | Killed(card: string)
    | Cleared(card: string)
    | FrozenFor(card: string, turns: int)
    | Thawed(card: string)
    | CoinsGained(amount: int, coins: int)
    | Executed
    | ExecutionFailed(health: int)
    | CascadeHit(card: string, damage: int, hp: int)
    | Defeated(card: string)
    | TargetLost
    | TargetRequired(card: string)
    | UnimplementedAtom(atom: string)

  /** A state together with the log lines produced while computing it. */
  datatype Outcome = Outcome(state: GameState, log: seq<Event>)
}
