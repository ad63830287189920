/** The player (player.rs). The source's revisions disagree on where the
    raw-material counters live; this model keeps them on the player, since
    the turn controller reads `player.wheat` and `player.water`, and keeps
    in the inventory only the ordered item list the controller ticks and
    pages through. The counters are `u32` in the source and unbounded here. */
module Players {
  import opened Things

  datatype Player = Player(health: nat, xp: nat, gold: nat, wheat: nat, water: nat)

  /** Items in insertion order, which is also display order. */
  datatype PlayerInventory = PlayerInventory(items: seq<ItemData>)

  /** `Player::new`. */
  function New(): (r: Player)
    ensures r.health == 10 && r.xp == 1 && r.gold == 0
    ensures r.wheat == 0 && r.water == 0
  {
    Player(10, 1, 0, 0, 0)
  }

  /** `PlayerInventory::default()`: no items at all. */
  function DefaultInventory(): (r: PlayerInventory)
    ensures |r.items| == 0
  {
    PlayerInventory([])
  }
}
