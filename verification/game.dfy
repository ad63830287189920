/** The turn controller (game.rs): the game session, the item random tick,
    and `do_action`. A move that is accepted runs exactly one random tick
    over the blocks and then the inventory items; the rolls for it are
    passed in. Drawing and the "[can use]" status line are left out, except
    for the predicate that decides the status line. */
module Game {
  import opened Ui
  import opened Things
  import opened Players
  import opened Registry
  import opened Maps
  import opened Lore
  import Farm
  import Wheat
  import Bread

  /** `MAX_POINT`: the last cell of the map. */
  const MaxPoint: Point := Point(29, 11)

  /** Where the player starts. */
  const Start: Point := Point(0, 0)

  predicate InBox(p: Point) {
    p.x <= MaxPoint.x && p.y <= MaxPoint.y
  }

  datatype Game = Game(
    player: Player,
    lore: LoreContents,
    inventory: PlayerInventory,
    pos: Point,
    maps: GameMaps)

  /** `Game::new`. */
  function New(): (r: Game)
    ensures r.pos == Start && r.lore == Nothing
    ensures r.player == Players.New() && r.inventory.items == []
    ensures r.maps.current == Farm && GetCurrent(r.maps) == Farm.Init()
  {
    Game(Players.New(), Nothing, DefaultInventory(), Start, Maps.Init())
  }

  datatype GameAction = MoveUp | MoveDown | MoveLeft | MoveRight | Interact

  /** The rolls one random tick draws: one per block of the current map,
      then one per inventory item. */
  datatype TickRolls = TickRolls(blocks: seq<Roll>, items: seq<Roll>)

  predicate RollsFit(g: Game, rolls: TickRolls) {
    |rolls.blocks| == |GetCurrent(g.maps)| && |rolls.items| == |g.inventory.items|
  }

  /** `GameHandle::do_random_tick`: each item whose roll is sampled is
      updated, the others are kept; order and count stay the same. */
  function ItemTick(items: seq<ItemData>, rolls: seq<Roll>): (r: seq<ItemData>)
    requires |rolls| == |items|
    ensures |r| == |items|
    ensures forall i :: 0 <= i < |items| ==>
              r[i] == if Sampled(rolls[i]) then UpdateItem(items[i]) else items[i]
    decreases |items|
  {
    if |items| == 0 then []
    else
      [if Sampled(rolls[0]) then UpdateItem(items[0]) else items[0]]
      + ItemTick(items[1..], rolls[1..])
  }

  /** Every loaf in the inventory is within its documented baking range. */
  predicate ItemsValid(items: seq<ItemData>) {
    forall i :: 0 <= i < |items| ==> Bread.Valid(items[i].item)
  }

  /** The item tick keeps every loaf in range and never touches a tier. */
  lemma ItemTickValid(items: seq<ItemData>, rolls: seq<Roll>)
    requires |rolls| == |items| && ItemsValid(items)
    ensures ItemsValid(ItemTick(items, rolls))
    ensures forall i :: 0 <= i < |items| ==> ItemTick(items, rolls)[i].state == items[i].state
  {
  }

  /** `Game::do_random_tick`: the blocks first, then the items. The player,
      the position and the panel are left alone. */
  function DoRandomTick(g: Game, rolls: TickRolls): (r: Game)
    requires RollsFit(g, rolls)
    ensures r.player == g.player && r.pos == g.pos && r.lore == g.lore
    ensures |GetCurrent(r.maps)| == |GetCurrent(g.maps)| && |r.inventory.items| == |g.inventory.items|
    ensures r.maps.current == g.maps.current
    ensures forall i :: 0 <= i < |rolls.blocks| ==>
              GetCurrent(r.maps)[i]
              == if Sampled(rolls.blocks[i]) then RunUpdate(GetCurrent(g.maps)[i]) else GetCurrent(g.maps)[i]
    ensures forall i :: 0 <= i < |rolls.items| ==>
              r.inventory.items[i]
              == if Sampled(rolls.items[i]) then UpdateItem(g.inventory.items[i]) else g.inventory.items[i]
  {
    g.(maps := Maps.DoRandomTick(g.maps, rolls.blocks),
       inventory := PlayerInventory(ItemTick(g.inventory.items, rolls.items)))
  }

  /** The cell a move action steps to, or `None` when the move would leave
      the map. A `u16` step past 65535 would wrap, but no position in the
      box gets near it. */
  function Target(pos: Point, act: GameAction): (r: Option<Point>)
    ensures act == Interact ==> r.None?
    ensures act == MoveUp ==> (r.Some? <==> pos.y != 0)
    ensures act == MoveLeft ==> (r.Some? <==> pos.x != 0)
    ensures act == MoveDown ==> (r.Some? <==> pos.y != MaxPoint.y)
    ensures act == MoveRight ==> (r.Some? <==> pos.x != MaxPoint.x)
    ensures r.Some? && act == MoveUp ==> r.value == Point(pos.x, pos.y - 1)
    ensures r.Some? && act == MoveLeft ==> r.value == Point(pos.x - 1, pos.y)
    ensures r.Some? && act == MoveDown && InBox(pos) ==> r.value == Point(pos.x, pos.y + 1)
    ensures r.Some? && act == MoveRight && InBox(pos) ==> r.value == Point(pos.x + 1, pos.y)
    ensures r.Some? && InBox(pos) ==> InBox(r.value)
  {
    match act
    case MoveUp => if pos.y != 0 then Some(pos.(y := pos.y - 1)) else None
    case MoveDown => if pos.y != MaxPoint.y then Some(pos.(y := (pos.y + 1) % 0x1_0000)) else None
    case MoveLeft => if pos.x != 0 then Some(pos.(x := pos.x - 1)) else None
    case MoveRight => if pos.x != MaxPoint.x then Some(pos.(x := (pos.x + 1) % 0x1_0000)) else None
    case Interact => None
  }

  /** The first block at `p` is impassable. */
  predicate Blocked(m: GameMaps, p: Point) {
    match FindAt(m, p)
    case Some(d) => d.state.collision == Collision
    case None => false
  }

  /** The status line shows "[can use]": the block under the player is usable. */
  predicate CanUseHere(g: Game) {
    match FindAt(g.maps, g.pos)
    case Some(d) => d.state.collision == CanUse
    case None => false
  }

  /** `Game::do_action`. A move off the map or into an impassable block
      changes nothing and runs no tick; any other move steps to the
      neighbouring cell and runs exactly one random tick. Interacting uses
      the block under the player, never moves, and runs no tick. */
  function DoAction(g: Game, act: GameAction, rolls: TickRolls): (r: Game)
    requires RollsFit(g, rolls)
    ensures act != Interact && Target(g.pos, act).None? ==> r == g
    ensures act != Interact && Target(g.pos, act).Some? && Blocked(g.maps, Target(g.pos, act).value) ==> r == g
    ensures act != Interact && Target(g.pos, act).Some? && !Blocked(g.maps, Target(g.pos, act).value) ==>
              r == DoRandomTick(g.(pos := Target(g.pos, act).value), rolls)
    ensures act == Interact ==>
              && r.pos == g.pos && r.inventory == g.inventory && r.lore == g.lore
              && Interaction(r.maps, r.player) == InteractAt(g.maps, g.pos, g.player)
    ensures InBox(g.pos) ==> InBox(r.pos)
    ensures |GetCurrent(r.maps)| == |GetCurrent(g.maps)| && |r.inventory.items| == |g.inventory.items|
  {
    if act == Interact then
      var x := InteractAt(g.maps, g.pos, g.player);
      g.(maps := x.maps, player := x.player)
    else
      match Target(g.pos, act)
      case None => g
      case Some(q) =>
        if Blocked(g.maps, q) then g
        else DoRandomTick(g.(pos := q), rolls)
  }

  /** A move towards the edge of the map from the edge changes nothing. */
  lemma MoveAtEdge(g: Game, act: GameAction, rolls: TickRolls)
    requires RollsFit(g, rolls)
    requires || (act == MoveUp && g.pos.y == 0)
             || (act == MoveLeft && g.pos.x == 0)
             || (act == MoveDown && g.pos.y == MaxPoint.y)
             || (act == MoveRight && g.pos.x == MaxPoint.x)
    ensures DoAction(g, act, rolls) == g
  {
  }

  /** A water cell of the farm. */
  predicate IsWater(p: Point) {
    p.y == 2 && 1 <= p.x <= 5
  }

  /** Lookup on a farm of the usual shape: the block at each of the ten
      cells is the one listed for it, and every other cell is vacant. */
  lemma FarmLookup(m: GameMaps, p: Point)
    requires Farm.FarmShape(GetCurrent(m))
    ensures 1 <= p.x <= 5 && p.y == 1 ==> FindAt(m, p) == Some(GetCurrent(m)[p.x - 1])
    ensures IsWater(p) ==> FindAt(m, p) == Some(GetCurrent(m)[p.x + 4])
    ensures !(1 <= p.x <= 5 && 1 <= p.y <= 2) ==> FindAt(m, p).None?
    ensures Blocked(m, p) <==> IsWater(p)
  {
    var b := GetCurrent(m);
    if 1 <= p.x <= 5 && 1 <= p.y <= 2 {
      var i := if p.y == 1 then p.x - 1 else p.x + 4;
      assert b[i].state.pos == Farm.FieldPos(i);
      assert FirstAt(b, p, i);
    } else {
      assert Vacant(b, p) by {
        forall i | 0 <= i < |b| ensures b[i].state.pos != p {
          assert b[i].state.pos == Farm.FieldPos(i);
        }
      }
    }
  }

  /** Everything a reachable game state satisfies. */
  predicate Inv(g: Game) {
    && InBox(g.pos)
    && !IsWater(g.pos)
    && g.maps.current == Farm
    && Farm.FarmShape(GetCurrent(g.maps))
    && ItemsValid(g.inventory.items)
  }

  /** The farm lies inside the map and leaves the start cell free. */
  lemma FarmFitsTheMap()
    ensures forall i :: 0 <= i < 10 ==> InBox(Farm.FieldPos(i)) && Farm.FieldPos(i) != Start
    ensures Vacant(Farm.Init(), Start)
  {
  }

  /** The game starts in a reachable state. */
  lemma NewGameInv()
    ensures Inv(New())
  {
  }

  /** A random tick keeps the farm's shape. */
  lemma TickKeepsFarmShape(m: GameMaps, rolls: seq<Roll>)
    requires |rolls| == |GetCurrent(m)| && Farm.FarmShape(GetCurrent(m))
    ensures Farm.FarmShape(GetCurrent(Maps.DoRandomTick(m, rolls)))
  {
    var b := GetCurrent(m);
    var r := GetCurrent(Maps.DoRandomTick(m, rolls));
    forall i | 0 <= i < 5
      ensures r[i].block.Crop? && Consistent(r[i]) && ValidBlock(r[i].block)
    {
      RunUpdateConsistent(b[i]);
    }
    forall i | 5 <= i < 10
      ensures r[i] == Farm.WaterCell(Farm.FieldPos(i))
    {
      MergeNoChange(b[i].state);
    }
  }

  /** Using a cell keeps the farm's shape. */
  lemma InteractKeepsFarmShape(m: GameMaps, p: Point, player: Player)
    requires Farm.FarmShape(GetCurrent(m))
    ensures Farm.FarmShape(GetCurrent(InteractAt(m, p, player).maps))
  {
    var b := GetCurrent(m);
    var r := GetCurrent(InteractAt(m, p, player).maps);
    match FindIndex(b, p)
    case None =>
    case Some(i) =>
      RunInteractConsistent(b[i], player);
      MergeNoChange(b[i].state);
      assert r == b[i := RunInteract(b[i], player)];
  }

  /** Every action keeps a reachable state reachable: the player stays on
      the map and off the water, the farm keeps its shape, and every loaf
      stays in range. */
  lemma DoActionInv(g: Game, act: GameAction, rolls: TickRolls)
    requires Inv(g) && RollsFit(g, rolls)
    ensures Inv(DoAction(g, act, rolls))
  {
    var r := DoAction(g, act, rolls);
    if act == Interact {
      InteractKeepsFarmShape(g.maps, g.pos, g.player);
    } else if Target(g.pos, act).Some? {
      var q := Target(g.pos, act).value;
      FarmLookup(g.maps, q);
      if !Blocked(g.maps, q) {
        TickKeepsFarmShape(g.maps, rolls.blocks);
        ItemTickValid(g.inventory.items, rolls.items);
      }
    }
  }

  /** Water always stops the player: from a wheat field, moving down is
      rejected on every reachable state. */
  lemma WaterStopsThePlayer(g: Game, rolls: TickRolls)
    requires Inv(g) && RollsFit(g, rolls)
    requires g.pos.y == 1 && 1 <= g.pos.x <= 5
    ensures DoAction(g, MoveDown, rolls) == g
  {
    FarmLookup(g.maps, Point(g.pos.x, 2));
  }

  /** Harvesting in the game: on a ripe wheat field the status line shows
      "[can use]"; interacting credits 10 wheat and turns the field into
      passable growing wheat; interacting again straight away changes
      nothing. */
  lemma HarvestInGame(g: Game, rolls: TickRolls)
    requires Inv(g) && RollsFit(g, rolls)
    requires g.pos.y == 1 && 1 <= g.pos.x <= 5
    requires GetCurrent(g.maps)[g.pos.x - 1].block == Crop(Wheat.New())
    ensures CanUseHere(g)
    ensures var r := DoAction(g, Interact, rolls);
            && r.player.wheat == g.player.wheat + Wheat.HarvestYield
            && GetCurrent(r.maps)[g.pos.x - 1].state == BlockState(g.pos, NoCollision, BlockTy.GrowingWheat)
            && !CanUseHere(r)
            && RollsFit(r, rolls)
            && DoAction(r, Interact, rolls) == r
  {
    var i := g.pos.x - 1;
    FarmLookup(g.maps, g.pos);
    var b := GetCurrent(g.maps);
    assert FirstAt(b, g.pos, i);
    var r := DoAction(g, Interact, rolls);
    InteractKeepsFarmShape(g.maps, g.pos, g.player);
    FarmLookup(r.maps, r.pos);
    assert FirstAt(GetCurrent(r.maps), g.pos, i);
  }
}
