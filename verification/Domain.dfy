/** Types and small helpers shared by the components. */
module Domain {

  datatype Option<+T> = None | Some(value: T)

  /** An order or a book change may carry no side. */
  datatype Side = NoSide | Buy | Sell

  /** The side that closes a position: everything but a buy is closed by buying. */
  function Opposite(side: Side): Side {
    if side == Buy then Sell else Buy
  }

  function Max(a: real, b: real): real {
    if a < b then b else a
  }

  function Min(a: real, b: real): real {
    if b < a then b else a
  }

  function Abs(x: real): real {
    if x < 0.0 then -x else x
  }

  function Clamp(x: real, lo: real, hi: real): real {
    if x < lo then lo else if hi < x then hi else x
  }

  /** `std::round` on non-negative numbers: halves go up. */
  function Round(x: real): int {
    (x + 0.5).Floor
  }
}
