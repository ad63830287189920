/** The Wheat block (assets/blocks/wheat.rs): a countdown state machine.
    A ripe wheat (counter 0) can be harvested, which credits the player and
    starts a regrowth countdown; random ticks count it down, and the tick
    that reaches 0 makes the wheat ripe and usable again. */
module Wheat {
  import opened Ui
  import opened Things
  import opened Blocks
  import opened Players

  /** The private countdown, a `u8` in the source. */
  datatype Wheat = Wheat(tick: u8)

  /** Ticks of regrowth after a harvest. */
  const RegrowTicks: u8 := 4

  /** Wheat credited to the player per harvest. */
  const HarvestYield: nat := 10

  /** The delta that turns the block back into ripe, usable wheat. */
  const Ripen: BlockUpdates :=
    BlockUpdates(PartialBlockState(None, Some(CanUse), Some(BlockTy.Wheat)), [])

  /** The delta that turns a harvested block into passable growing wheat. */
  const Harvest: BlockUpdates :=
    BlockUpdates(PartialBlockState(None, Some(NoCollision), Some(BlockTy.GrowingWheat)), [])

  /** The counter never leaves 0..=4. */
  predicate Valid(w: Wheat) {
    w.tick <= RegrowTicks
  }

  /** `Wheat::new`: ripe. */
  function New(): (r: Wheat)
    ensures r.tick == 0 && Valid(r)
  {
    Wheat.Wheat(0)
  }

  datatype Updated = Updated(wheat: Wheat, updates: BlockUpdates)

  /** `Wheat::update`, run on a random tick. */
  function Update(w: Wheat): (r: Updated)
    ensures w.tick == 0 ==> r == Updated(w, NoUpdates)
    ensures w.tick > 0 ==> r.wheat.tick == w.tick - 1
    ensures w.tick > 0 ==> (r.updates == Ripen <==> r.wheat.tick == 0)
    ensures r.updates == Ripen || r.updates == NoUpdates
    ensures Local(r.updates)
    ensures Valid(w) ==> Valid(r.wheat)
  {
    if w.tick == 0 then Updated(w, NoUpdates)
    else
      var next := Wheat.Wheat(w.tick - 1);
      if next.tick == 0 then Updated(next, Ripen) else Updated(next, NoUpdates)
  }

  datatype Interacted = Interacted(wheat: Wheat, player: Player, updates: BlockUpdates)

  /** `Wheat::interact`, run when the player uses the block. */
  function Interact(w: Wheat, p: Player): (r: Interacted)
    ensures w.tick != 0 ==> r == Interacted(w, p, NoUpdates)
    ensures w.tick == 0 ==> r.player == p.(wheat := p.wheat + HarvestYield)
    ensures w.tick == 0 ==> r.wheat.tick == RegrowTicks && r.updates == Harvest
    ensures Local(r.updates)
    ensures Valid(w) ==> Valid(r.wheat)
  {
    if w.tick != 0 then Interacted(w, p, NoUpdates)
    else Interacted(Wheat.Wheat(RegrowTicks), p.(wheat := p.wheat + HarvestYield), Harvest)
  }

  /** The wheat after `n` updates in a row. */
  function UpdateN(w: Wheat, n: nat): Wheat
    decreases n
  {
    if n == 0 then w else UpdateN(Update(w).wheat, n - 1)
  }

  /** The deltas emitted by `n` updates in a row, in order. */
  function EmittedN(w: Wheat, n: nat): seq<BlockUpdates>
    decreases n
  {
    if n == 0 then [] else [Update(w).updates] + EmittedN(Update(w).wheat, n - 1)
  }

  /** Updates count the counter down to 0 and stop there; the only update
      that emits anything is the one that brings the counter from 1 to 0,
      and it emits `Ripen`. */
  lemma {:induction false} Countdown(t: u8, n: nat)
    ensures UpdateN(Wheat.Wheat(t), n).tick == if n <= t then t - n else 0
    ensures |EmittedN(Wheat.Wheat(t), n)| == n
    ensures forall k :: 0 <= k < n ==>
              EmittedN(Wheat.Wheat(t), n)[k] == if k + 1 == t then Ripen else NoUpdates
    decreases n
  {
    if n > 0 {
      var u := Update(Wheat.Wheat(t));
      Countdown(u.wheat.tick, n - 1);
      var rest := EmittedN(u.wheat, n - 1);
      assert EmittedN(Wheat.Wheat(t), n) == [u.updates] + rest;
      forall k | 0 <= k < n
        ensures EmittedN(Wheat.Wheat(t), n)[k] == if k + 1 == t then Ripen else NoUpdates
      {
        if k > 0 {
          assert EmittedN(Wheat.Wheat(t), n)[k] == rest[k - 1];
        }
      }
    }
  }

  /** The harvest cycle: harvesting ripe wheat credits 10 wheat; using it
      again straight away does nothing; the next three updates emit nothing,
      and the fourth makes it ripe again. */
  lemma HarvestCycle(p: Player)
    ensures var h := Interact(New(), p);
            && h.player.wheat == p.wheat + HarvestYield
            && h.updates == Harvest
            && Interact(h.wheat, h.player) == Interacted(h.wheat, h.player, NoUpdates)
            && EmittedN(h.wheat, 4) == [NoUpdates, NoUpdates, NoUpdates, Ripen]
            && UpdateN(h.wheat, 4) == New()
  {
    var h := Interact(New(), p);
    Countdown(RegrowTicks, 4);
    var e := EmittedN(h.wheat, 4);
    assert e[0] == NoUpdates && e[1] == NoUpdates && e[2] == NoUpdates && e[3] == Ripen;
  }
}
