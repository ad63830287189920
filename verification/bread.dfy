/** The Bread item (assets/items/bread.rs): a two-stage state machine that
    bakes for a few ticks and then becomes a finished loaf of fixed mass. */
module Bread {
  import opened Ui

  /** `Baking` counts ticks spent in the oven; `Normal` is the finished
      loaf. Both counters are `u8` in the source. */
  datatype Bread = Baking(tick: u8) | Normal(mass: u8)

  /** The tick at which the next update finishes baking. */
  const LastBakingTick: u8 := 3

  /** The mass every finished loaf gets. */
  const BakedMass: u8 := 123

  /** The stage a fresh loaf starts in. */
  const Initial: Bread := Baking(0)

  /** The documented range of the baking counter: 0 to 3. */
  predicate Valid(b: Bread) {
    b.Baking? ==> b.tick <= LastBakingTick
  }

  /** One random-tick update. The increment wraps at 256 like a release
      build of the source; the `Valid` range never gets near it. */
  function Update(b: Bread): (r: Bread)
    ensures b.Normal? ==> r == b
    ensures b.Baking? && b.tick < LastBakingTick ==> r == Baking(b.tick + 1)
    ensures b == Baking(LastBakingTick) ==> r == Normal(BakedMass)
    ensures Valid(b) ==> Valid(r)
  {
    match b
    case Baking(t) =>
      if t == LastBakingTick then Normal(BakedMass) else Baking((t + 1) % 0x100)
    case Normal(_) => b
  }

  /** The display name of the item. */
  function Name(b: Bread): string {
    match b
    case Baking(_) => "Baking bread"
    case Normal(_) => "Bread"
  }

  /** The name says "Bread" exactly when baking is over. */
  lemma NameTracksStage(b: Bread)
    ensures Name(b) == "Bread" <==> b.Normal?
    ensures Name(b) == "Baking bread" <==> b.Baking?
  {
  }

  /** `n` updates in a row. */
  function UpdateN(b: Bread, n: nat): Bread
    decreases n
  {
    if n == 0 then b else UpdateN(Update(b), n - 1)
  }

  /** A finished loaf never changes again. */
  lemma {:induction false} NormalIsTerminal(m: u8, n: nat)
    ensures UpdateN(Normal(m), n) == Normal(m)
    decreases n
  {
    if n > 0 {
      NormalIsTerminal(m, n - 1);
    }
  }

  /** From any valid baking stage, every update adds one to the counter
      until the counter has reached 3, and the next update finishes the loaf. */
  lemma {:induction false} BakingTrace(t: u8, n: nat)
    requires t <= LastBakingTick
    ensures UpdateN(Baking(t), n)
         == if t + n <= LastBakingTick then Baking(t + n) else Normal(BakedMass)
    decreases n
  {
    if n > 0 {
      if t == LastBakingTick {
        NormalIsTerminal(BakedMass, n - 1);
      } else {
        BakingTrace(t + 1, n - 1);
      }
    }
  }

  /** A fresh loaf is still `Baking(3)` after three updates and is
      `Normal(123)` after the fourth and every later one. */
  lemma FreshBreadBakesInFourUpdates(n: nat)
    ensures n <= 3 ==> UpdateN(Initial, n) == Baking(n)
    ensures n >= 4 ==> UpdateN(Initial, n) == Normal(BakedMass)
  {
    BakingTrace(0, n);
  }
}
