/** Types shared by every module of the model. */
module Prelude {
  datatype Option<+T> = None | Some(value: T)

  datatype Mode = Paper | Live

  datatype Side = Buy | Sell {
    /** `Side.sign`: the direction a fill moves a position in. */
    function Sign(): int {
      if this == Buy then 1 else -1
    }
  }

  /** Which option a contract is: a call (CE) or a put (PE). */
  datatype OptionType = CE | PE

  function Max(x: real, y: real): real {
    if x >= y then x else y
  }

  function Min(x: real, y: real): real {
    if x <= y then x else y
  }

  function Abs(x: real): real {
    if x >= 0.0 then x else -x
  }

  /** Python's `round` to a whole number: halves go to the even neighbour. */
  function Round(x: real): int {
    var rest := x - x.Floor as real;
    if rest < 0.5 || (rest == 0.5 && x.Floor % 2 == 0) then x.Floor else x.Floor + 1
  }

  function Power(x: real, n: nat): real {
    if n == 0 then 1.0 else x * Power(x, n - 1)
  }
}
