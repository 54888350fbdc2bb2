/** Integer arithmetic the sources do with JavaScript numbers. */
module Arith {

  /** `Math.ceil(x / d)` for an integer `x` and a positive integer `d`: the
      least integer `r` with `x <= d * r`. */
  function CeilDiv(x: int, d: int): (r: int)
    requires d > 0
    ensures d * (r - 1) < x <= d * r
  {
    -((-x) / d)
  }

  /** `Math.floor(ms / 1000)`: the whole seconds of a time in milliseconds,
      rounded down also before 1970. */
  function Seconds(ms: int): (r: int)
    ensures 1000 * r <= ms < 1000 * r + 1000
  {
    ms / 1000
  }
}
