/** Generic state of game things (things.rs): the block state with its
    sparse partial-state merge, and the item state with its tier.
    map.rs carries an identical copy of the block state types; this model
    keeps the things.rs copy as the single definition. */
module Things {
  import opened Ui
  import Bread

  /** How the player may enter a cell. */
  datatype CollisionTy =
    | NoCollision  // the player can move into the block
    | CanUse       // the player can move into the block and interact with it
    | Collision    // the player cannot move into the block

  /** The generic, authoritative state of a placed block. */
  datatype BlockState = BlockState(pos: Point, collision: CollisionTy, ty: BlockTy)

  /** A sparse override of a block state: `None` fields mean "no change". */
  datatype PartialBlockState =
    PartialBlockState(pos: Option<Point>, collision: Option<CollisionTy>, ty: Option<BlockTy>)

  /** `PartialBlockState::default()`: every field absent. */
  const NoChange: PartialBlockState := PartialBlockState(None, None, None)

  /** `BlockState::merge_with`: every present field of `p` overwrites the
      matching field of `s`, every absent field keeps the old value. */
  function MergeWith(s: BlockState, p: PartialBlockState): (r: BlockState)
    ensures p.pos.Some? ==> r.pos == p.pos.value
    ensures p.pos.None? ==> r.pos == s.pos
    ensures p.collision.Some? ==> r.collision == p.collision.value
    ensures p.collision.None? ==> r.collision == s.collision
    ensures p.ty.Some? ==> r.ty == p.ty.value
    ensures p.ty.None? ==> r.ty == s.ty
  {
    BlockState(p.pos.GetOr(s.pos), p.collision.GetOr(s.collision), p.ty.GetOr(s.ty))
  }

  /** The partial state that does `p` and then `q`: fields of `q` win. */
  function Compose(p: PartialBlockState, q: PartialBlockState): PartialBlockState {
    PartialBlockState(
      if q.pos.Some? then q.pos else p.pos,
      if q.collision.Some? then q.collision else p.collision,
      if q.ty.Some? then q.ty else p.ty)
  }

  /** Merging the empty partial state changes nothing. */
  lemma MergeNoChange(s: BlockState)
    ensures MergeWith(s, NoChange) == s
  {
  }

  /** Merging the same partial state twice is the same as merging it once. */
  lemma MergeIdempotent(s: BlockState, p: PartialBlockState)
    ensures MergeWith(MergeWith(s, p), p) == MergeWith(s, p)
  {
  }

  /** Two merges in a row are one merge of the composed partial state, so
      of two writes to the same field the later one wins. */
  lemma MergeCompose(s: BlockState, p: PartialBlockState, q: PartialBlockState)
    ensures MergeWith(MergeWith(s, p), q) == MergeWith(s, Compose(p, q))
  {
  }

  /** The documented example: merging `{ty: Wheat}` into a growing wheat
      block at (1, 1) turns it into wheat and leaves it at (1, 1). */
  lemma MergeExample()
    ensures var block := BlockState(Point(1, 1), NoCollision, BlockTy.GrowingWheat);
            var r := MergeWith(block, NoChange.(ty := Some(BlockTy.Wheat)));
            r.ty == BlockTy.Wheat && r.pos == Point(1, 1) && r.collision == NoCollision
  {
  }

  /** Item rank, from the most common to the rarest. */
  datatype ItemTier = Common | Uncommon | Rare | Silver | Gold | Platinum

  /** The generic state of an item. */
  datatype ItemState = ItemState(tier: ItemTier)

  /** `ItemState::default()`: its definition is not part of this model, so
      the first tier is assumed. */
  const DefaultItemState: ItemState := ItemState(Common)

  /** An item in an inventory: its generic state and its behaviour. Bread is
      the only item behaviour. */
  datatype ItemData = ItemData(state: ItemState, item: Bread.Bread)

  /** `Bread::new`: a fresh loaf in the oven with the default item state. */
  function NewBread(): (r: ItemData)
    ensures r.item.Baking? && r.item.tick == 0
    ensures r.state.tier == Common
    ensures Bread.Valid(r.item)
  {
    ItemData(DefaultItemState, Bread.Initial)
  }

  /** One update of an item's behaviour. Bread never touches the tier. */
  function UpdateItem(d: ItemData): ItemData {
    d.(item := Bread.Update(d.item))
  }
}
