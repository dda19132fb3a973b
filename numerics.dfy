/** Real-number stand-ins for the floating-point operations the programs use.
    Square root and real exponentiation cannot be computed here, so they are
    supplied by the caller as a `MathLib` value: the model proves nothing that
    depends on what these functions return. */
module Numerics {

  /** The two library functions the programs call: `math.sqrt` and `x ** y`. */
  datatype MathLib = MathLib(sqrt: real -> real, pow: (real, real) -> real)

  /** A float that may be `math.inf`, the starting value of a running minimum. */
  datatype Length = Finite(value: real) | Infinite
  {
    predicate Less(other: Length) {
      match (this, other)
      case (Finite(a), Finite(b)) => a < b
      case (Finite(_), Infinite) => true
      case (Infinite, _) => false
    }

    predicate AtMost(other: Length) {
      !other.Less(this)
    }
  }

  /** `10 ** -5`, the smallest distance used when computing attractiveness. */
  const Epsilon: real := 0.00001

  /** `max(d, 10 ** -5)`. */
  function Clamp(d: real): (r: real)
    ensures r >= Epsilon && r >= d
    ensures r == d || r == Epsilon
  {
    if Epsilon > d then Epsilon else d
  }

  /** Python's `sum(s)`: a left-to-right accumulation starting at 0. */
  function Sum(s: seq<real>): real
  {
    if |s| == 0 then 0.0 else Sum(s[..|s| - 1]) + s[|s| - 1]
  }

  /** `range(k)` runs `Count(k)` times: negative counts run zero times. */
  function Count(k: int): (r: nat)
    ensures k >= 0 ==> r == k
    ensures k < 0 ==> r == 0
  {
    if k > 0 then k else 0
  }
}
