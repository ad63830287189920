/** Plain data shared by the whole game: fixed-width integers, grid points,
    block symbols, and the optional value used by partial states. Only the
    data of the display layer is kept here; drawing itself is not modelled. */
module Ui {

  /** Rust's `u8`. */
  type u8 = x: int | 0 <= x < 0x100

  /** Rust's `u16`, the coordinate width of a point. */
  type u16 = x: int | 0 <= x < 0x1_0000

  /** A grid point (X; Y). Equality is exact. */
  datatype Point = Point(x: u16, y: u16)

  /** The symbol a cell is drawn with. It is purely presentational. */
  datatype BlockTy =
    | Air
    | Player
    | NPCFarmer
    | Wheat
    | GrowingWheat
    | Wall
    | WallDoor
    | Water
    | BridgeV
    | BridgeH

  /** Rust's `Option`. */
  datatype Option<+T> = None | Some(value: T) {
    function GetOr(default: T): T {
      match this
      case Some(v) => v
      case None => default
    }
  }
}
