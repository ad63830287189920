/** The map container (map.rs): the active map's ordered block list,
    lookup by exact position, the two-phase random tick, and interaction.
    Randomness is an explicit sequence of rolls, one per block in map order;
    drawing is left out. */
module Maps {
  import opened Ui
  import opened Things
  import opened Players
  import opened Registry
  import Farm

  /** A draw of `gen_range(0..100)`. */
  type Roll = x: int | 0 <= x < 100

  /** A thing runs its update on a tick iff its roll is below this. */
  const TickChance: Roll := 15

  predicate Sampled(roll: Roll) {
    roll < TickChance
  }

  /** The maps the game knows. */
  datatype GameMap = Farm

  datatype GameMaps = GameMaps(current: GameMap, farm: seq<BlockData>)

  /** `GameMaps::init`: the farm is current and freshly laid out. */
  function Init(): (r: GameMaps)
    ensures r.current == Farm && r.farm == Farm.Init()
  {
    GameMaps(Farm, Farm.Init())
  }

  /** `get_current`: the block list of the current map. */
  function GetCurrent(m: GameMaps): (r: seq<BlockData>)
    ensures m.current == Farm ==> r == m.farm
  {
    match m.current
    case Farm => m.farm
  }

  /** Writing back through `get_current_mut`. */
  function SetCurrent(m: GameMaps, blocks: seq<BlockData>): (r: GameMaps)
    ensures r.current == m.current && GetCurrent(r) == blocks
  {
    match m.current
    case Farm => m.(farm := blocks)
  }

  /** `i` is the first index whose block stands at `p`. */
  predicate FirstAt(blocks: seq<BlockData>, p: Point, i: int) {
    && 0 <= i < |blocks|
    && blocks[i].state.pos == p
    && forall j :: 0 <= j < i ==> blocks[j].state.pos != p
  }

  /** No block stands at `p`. */
  predicate Vacant(blocks: seq<BlockData>, p: Point) {
    forall i :: 0 <= i < |blocks| ==> blocks[i].state.pos != p
  }

  /** The index `iter().find` stops at. */
  function FindIndex(blocks: seq<BlockData>, p: Point): (r: Option<nat>)
    ensures r.None? <==> Vacant(blocks, p)
    ensures r.Some? ==> FirstAt(blocks, p, r.value)
  {
    if |blocks| == 0 then None
    else if blocks[0].state.pos == p then Some(0)
    else
      match FindIndex(blocks[1..], p)
      case None => None
      case Some(i) => Some(i + 1)
  }

  /** There is at most one first block at a position. */
  lemma FirstAtUnique(blocks: seq<BlockData>, p: Point, i: int, j: int)
    requires FirstAt(blocks, p, i) && FirstAt(blocks, p, j)
    ensures i == j
  {
  }

  /** `find_at`: the first block of the current map at exactly `p`. */
  function FindAt(m: GameMaps, p: Point): (r: Option<BlockData>)
    ensures r.None? <==> Vacant(GetCurrent(m), p)
    ensures forall i :: FirstAt(GetCurrent(m), p, i) ==> r == Some(GetCurrent(m)[i])
  {
    match FindIndex(GetCurrent(m), p)
    case None => None
    case Some(i) =>
      assert forall j :: FirstAt(GetCurrent(m), p, j) ==> j == i by {
        forall j | FirstAt(GetCurrent(m), p, j) ensures j == i {
          FirstAtUnique(GetCurrent(m), p, i, j);
        }
      }
      Some(GetCurrent(m)[i])
  }

  /** Applies one addressed delta: it is merged into the first block at
      `target`, and dropped without error when no block stands there. */
  function ApplyOther(blocks: seq<BlockData>, target: Point, delta: PartialBlockState): (r: seq<BlockData>)
    ensures |r| == |blocks|
    ensures forall i :: 0 <= i < |r| ==> r[i].block == blocks[i].block
    ensures Vacant(blocks, target) ==> r == blocks
    ensures forall i :: FirstAt(blocks, target, i) ==>
              r == blocks[i := blocks[i].(state := MergeWith(blocks[i].state, delta))]
  {
    match FindIndex(blocks, target)
    case None => blocks
    case Some(i) =>
      assert forall j :: FirstAt(blocks, target, j) ==> j == i by {
        forall j | FirstAt(blocks, target, j) ensures j == i {
          FirstAtUnique(blocks, target, i, j);
        }
      }
      blocks[i := blocks[i].(state := MergeWith(blocks[i].state, delta))]
  }

  /** No delta in the list sets a position. */
  predicate NoMoves(deltas: seq<(Point, PartialBlockState)>) {
    forall k :: 0 <= k < |deltas| ==> deltas[k].1.pos.None?
  }

  /** Applies addressed deltas one by one, in emission order. Each is
      looked up in the blocks as the earlier ones left them. */
  function ApplyOthers(blocks: seq<BlockData>, deltas: seq<(Point, PartialBlockState)>): (r: seq<BlockData>)
    ensures |r| == |blocks|
    ensures forall i :: 0 <= i < |r| ==> r[i].block == blocks[i].block
    ensures NoMoves(deltas) ==> forall i :: 0 <= i < |r| ==> r[i].state.pos == blocks[i].state.pos
    decreases |deltas|
  {
    if |deltas| == 0 then blocks
    else ApplyOthers(ApplyOther(blocks, deltas[0].0, deltas[0].1), deltas[1..])
  }

  /** Applying two lists of deltas one after the other is applying their
      concatenation: the order of emission is the order of application. */
  lemma {:induction false} ApplyOthersAppend(
    blocks: seq<BlockData>, d1: seq<(Point, PartialBlockState)>, d2: seq<(Point, PartialBlockState)>)
    ensures ApplyOthers(blocks, d1 + d2) == ApplyOthers(ApplyOthers(blocks, d1), d2)
    decreases |d1|
  {
    if |d1| > 0 {
      assert (d1 + d2)[0] == d1[0];
      assert (d1 + d2)[1..] == d1[1..] + d2;
      ApplyOthersAppend(ApplyOther(blocks, d1[0].0, d1[0].1), d1[1..], d2);
    } else {
      assert d1 + d2 == d2;
    }
  }

  /** Deltas whose targets are all vacant change nothing at all. */
  lemma {:induction false} ApplyOthersToVacant(blocks: seq<BlockData>, deltas: seq<(Point, PartialBlockState)>)
    requires forall k :: 0 <= k < |deltas| ==> Vacant(blocks, deltas[k].0)
    ensures ApplyOthers(blocks, deltas) == blocks
    decreases |deltas|
  {
    if |deltas| > 0 {
      assert Vacant(blocks, deltas[0].0);
      ApplyOthersToVacant(blocks, deltas[1..]);
    }
  }

  /** The outcome of the first phase of a tick. */
  datatype Sampling = Sampling(blocks: seq<BlockData>, pending: seq<(Point, PartialBlockState)>)

  /** First phase of `do_random_tick`: every block whose roll is sampled
      runs `update`, its own delta is merged at once, and the deltas it
      addresses to other cells are queued in emission order. For the
      closed behaviour set the queue always stays empty. */
  function SampleBlocks(blocks: seq<BlockData>, rolls: seq<Roll>): (r: Sampling)
    requires |rolls| == |blocks|
    ensures |r.blocks| == |blocks|
    ensures forall i :: 0 <= i < |blocks| && !Sampled(rolls[i]) ==> r.blocks[i] == blocks[i]
    ensures forall i :: 0 <= i < |blocks| && Sampled(rolls[i]) ==> r.blocks[i] == RunUpdate(blocks[i])
    ensures r.pending == []
    decreases |blocks|
  {
    if |blocks| == 0 then Sampling([], [])
    else
      var rest := SampleBlocks(blocks[1..], rolls[1..]);
      if Sampled(rolls[0]) then
        var u := UpdateBlock(blocks[0].block);
        Sampling([RunUpdate(blocks[0])] + rest.blocks, u.updates.other + rest.pending)
      else
        Sampling([blocks[0]] + rest.blocks, rest.pending)
  }

  /** Every block's behaviour state is in range. */
  predicate AllValid(blocks: seq<BlockData>) {
    forall i :: 0 <= i < |blocks| ==> ValidBlock(blocks[i].block)
  }

  /** `do_random_tick`: first every sampled block merges its own delta, then
      the queued deltas for other cells are applied in emission order.
      Unsampled blocks keep state and behaviour, no block is added, removed
      or moved, and behaviour states stay in range. */
  function DoRandomTick(m: GameMaps, rolls: seq<Roll>): (r: GameMaps)
    requires |rolls| == |GetCurrent(m)|
    ensures r.current == m.current && |GetCurrent(r)| == |GetCurrent(m)|
    ensures forall i :: 0 <= i < |rolls| ==>
              GetCurrent(r)[i] == if Sampled(rolls[i]) then RunUpdate(GetCurrent(m)[i]) else GetCurrent(m)[i]
    ensures forall i :: 0 <= i < |rolls| ==> GetCurrent(r)[i].state.pos == GetCurrent(m)[i].state.pos
    ensures AllValid(GetCurrent(m)) ==> AllValid(GetCurrent(r))
  {
    var s := SampleBlocks(GetCurrent(m), rolls);
    SetCurrent(m, ApplyOthers(s.blocks, s.pending))
  }

  datatype Interaction = Interaction(maps: GameMaps, player: Player)

  /** `interact_at`: the first block at `p` runs `interact`, its own delta is
      merged into it, and then its deltas for other cells are applied in
      order. A vacant position changes nothing. */
  function InteractAt(m: GameMaps, p: Point, player: Player): (r: Interaction)
    ensures r.maps.current == m.current && |GetCurrent(r.maps)| == |GetCurrent(m)|
    ensures Vacant(GetCurrent(m), p) ==> r == Interaction(m, player)
    ensures forall i :: FirstAt(GetCurrent(m), p, i) ==>
              var x := InteractBlock(GetCurrent(m)[i].block, player);
              && r.player == x.player
              && GetCurrent(r.maps) == GetCurrent(m)[i := RunInteract(GetCurrent(m)[i], player)]
    ensures forall i :: 0 <= i < |GetCurrent(m)| ==> GetCurrent(r.maps)[i].state.pos == GetCurrent(m)[i].state.pos
    ensures AllValid(GetCurrent(m)) ==> AllValid(GetCurrent(r.maps))
  {
    var blocks := GetCurrent(m);
    match FindIndex(blocks, p)
    case None => Interaction(m, player)
    case Some(i) =>
      assert forall j :: FirstAt(blocks, p, j) ==> j == i by {
        forall j | FirstAt(blocks, p, j) ensures j == i {
          FirstAtUnique(blocks, p, i, j);
        }
      }
      var x := InteractBlock(blocks[i].block, player);
      var merged := blocks[i := RunInteract(blocks[i], player)];
      Interaction(SetCurrent(m, ApplyOthers(merged, x.updates.other)), x.player)
  }
}
