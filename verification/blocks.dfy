/** What a block behaviour returns (assets/blocks/mod.rs): a delta for the
    block itself and an ordered list of deltas addressed to other cells. */
module Blocks {
  import opened Ui
  import opened Things

  /** `own` is the source's `this` delta. */
  datatype BlockUpdates = BlockUpdates(own: PartialBlockState, other: seq<(Point, PartialBlockState)>)

  /** `BlockUpdates::default()`: nothing changes here or anywhere else. The
      default `update` and `interact` of a behaviour both return it. */
  const NoUpdates: BlockUpdates := BlockUpdates(NoChange, [])

  /** The updates touch only the invoking block, and never move it. */
  predicate Local(u: BlockUpdates) {
    u.other == [] && u.own.pos.None?
  }

  /** The default updates leave the block's own state and every other
      block's state alone. */
  lemma NoUpdatesChangeNothing(s: BlockState)
    ensures MergeWith(s, NoUpdates.own) == s
    ensures NoUpdates.other == []
    ensures Local(NoUpdates)
  {
  }
}
