/** Placed blocks and the closed set of block behaviours (things.rs
    `BlockData`, assets/blocks/mod.rs). The source boxes a behaviour trait
    object, or stores none at all; here the set is a tagged union with one
    dispatch function per operation. */
module Registry {
  import opened Ui
  import opened Things
  import opened Blocks
  import opened Players
  import Wheat

  /** `Inert` is a block without behaviour (or with only the default
      no-op `update` and `interact`); `Crop` is a Wheat block. */
  datatype Block = Inert | Crop(wheat: Wheat.Wheat)

  /** A placed block: generic state plus behaviour. */
  datatype BlockData = BlockData(state: BlockState, block: Block)

  /** The behaviour's private state is in its documented range. */
  predicate ValidBlock(b: Block) {
    b.Crop? ==> Wheat.Valid(b.wheat)
  }

  /** A wheat block looks the way its countdown says: ripe and usable at
      0, passable growing wheat otherwise. Blocks of other kinds are free. */
  predicate Consistent(d: BlockData) {
    d.block.Crop? ==>
      if d.block.wheat.tick == 0 then d.state.collision == CanUse && d.state.ty == BlockTy.Wheat
      else d.state.collision == NoCollision && d.state.ty == BlockTy.GrowingWheat
  }

  /** `BlockData::new`. */
  function NewBlockData(pos: Point, collision: CollisionTy, ty: BlockTy, block: Block): (r: BlockData)
    ensures r.state.pos == pos && r.state.collision == collision && r.state.ty == ty
    ensures r.block == block
  {
    BlockData(BlockState(pos, collision, ty), block)
  }

  datatype Updated = Updated(block: Block, updates: BlockUpdates)

  /** Dispatch of `update`. No behaviour of the closed set moves its block
      or addresses another block. */
  function UpdateBlock(b: Block): (r: Updated)
    ensures b.Inert? ==> r == Updated(Inert, NoUpdates)
    ensures b.Crop? ==> r.block.Crop?
    ensures Local(r.updates)
    ensures ValidBlock(b) ==> ValidBlock(r.block)
    ensures r.updates.own.collision != Some(Collision)
  {
    match b
    case Inert => Updated(Inert, NoUpdates)
    case Crop(w) =>
      var u := Wheat.Update(w);
      Updated(Crop(u.wheat), u.updates)
  }

  datatype Interacted = Interacted(block: Block, player: Player, updates: BlockUpdates)

  /** Dispatch of `interact`. Only a behaviour may change the player. */
  function InteractBlock(b: Block, p: Player): (r: Interacted)
    ensures b.Inert? ==> r == Interacted(Inert, p, NoUpdates)
    ensures b.Crop? ==> r.block.Crop?
    ensures Local(r.updates)
    ensures ValidBlock(b) ==> ValidBlock(r.block)
    ensures r.updates.own.collision != Some(Collision)
  {
    match b
    case Inert => Interacted(Inert, p, NoUpdates)
    case Crop(w) =>
      var x := Wheat.Interact(w, p);
      Interacted(Crop(x.wheat), x.player, x.updates)
  }

  /** A block whose behaviour uses only the defaults never changes, on a
      tick or on use, and never changes anything else. */
  lemma InertNeverChanges(d: BlockData, p: Player)
    requires d.block.Inert?
    ensures MergeWith(d.state, UpdateBlock(d.block).updates.own) == d.state
    ensures MergeWith(d.state, InteractBlock(d.block, p).updates.own) == d.state
    ensures UpdateBlock(d.block).updates.other == [] && InteractBlock(d.block, p).updates.other == []
    ensures InteractBlock(d.block, p).player == p
  {
  }

  /** A block after running its own `interact` and merging its own delta. */
  function RunInteract(d: BlockData, p: Player): BlockData {
    var x := InteractBlock(d.block, p);
    BlockData(MergeWith(d.state, x.updates.own), x.block)
  }

  /** A block after running its own `update` and merging its own delta. */
  function RunUpdate(d: BlockData): BlockData {
    var u := UpdateBlock(d.block);
    BlockData(MergeWith(d.state, u.updates.own), u.block)
  }

  /** Updates keep a block where it is and keep its looks in step with its
      countdown. */
  lemma RunUpdateConsistent(d: BlockData)
    requires Consistent(d)
    ensures Consistent(RunUpdate(d))
    ensures RunUpdate(d).state.pos == d.state.pos
  {
  }

  /** So does an interaction. */
  lemma RunInteractConsistent(d: BlockData, p: Player)
    requires Consistent(d)
    ensures Consistent(RunInteract(d, p))
    ensures RunInteract(d, p).state.pos == d.state.pos
  {
  }
}
