/** The farm map (assets/maps/farm.rs): a row of five wheat fields above a
    row of five water cells. */
module Farm {
  import opened Ui
  import opened Things
  import opened Registry
  import Wheat

  /** A ripe wheat field at `pos`. */
  function WheatField(pos: Point): BlockData {
    NewBlockData(pos, CanUse, BlockTy.Wheat, Crop(Wheat.New()))
  }

  /** An impassable water cell at `pos`. */
  function WaterCell(pos: Point): BlockData {
    NewBlockData(pos, Collision, BlockTy.Water, Inert)
  }

  /** Where the `i`-th block of the farm stands. */
  function FieldPos(i: nat): Point
    requires i < 10
  {
    if i < 5 then Point(i + 1, 1) else Point(i - 4, 2)
  }

  /** The shape the farm keeps for the whole game: the same ten cells in
      the same order, water that never changes, and wheat fields whose
      looks follow their countdown. */
  predicate FarmShape(blocks: seq<BlockData>) {
    && |blocks| == 10
    && (forall i :: 0 <= i < 10 ==> blocks[i].state.pos == FieldPos(i))
    && (forall i :: 5 <= i < 10 ==> blocks[i] == WaterCell(FieldPos(i)))
    && (forall i :: 0 <= i < 5 ==>
          blocks[i].block.Crop? && Consistent(blocks[i]) && ValidBlock(blocks[i].block))
  }

  /** `init`: the initial block list, in this order. */
  function Init(): (r: seq<BlockData>)
    ensures |r| == 10
    ensures forall i :: 0 <= i < 5 ==> r[i] == WheatField(Point(i + 1, 1))
    ensures forall i :: 5 <= i < 10 ==> r[i] == WaterCell(Point(i - 4, 2))
    ensures forall i :: 0 <= i < 10 ==> r[i].state.pos == FieldPos(i)
    ensures forall i, j :: 0 <= i < j < |r| ==> r[i].state.pos != r[j].state.pos
    ensures FarmShape(r)
  {
    [ WheatField(Point(1, 1)), WheatField(Point(2, 1)), WheatField(Point(3, 1)),
      WheatField(Point(4, 1)), WheatField(Point(5, 1)),
      WaterCell(Point(1, 2)), WaterCell(Point(2, 2)), WaterCell(Point(3, 2)),
      WaterCell(Point(4, 2)), WaterCell(Point(5, 2)) ]
  }
}
