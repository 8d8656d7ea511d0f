/** Numeric building blocks shared by the whole model: the optional-argument
    wrapper used for JavaScript's `arg || default` idiom, and the rounding
    functions (`Math.floor`, `Math.round`, `Math.abs`) the source relies on.
    Coordinates are modelled as `real`; IEEE rounding is not modelled. */
module Numerics {

  /** An argument that the caller may leave out. */
  datatype Option<+T> = None | Some(value: T)

  /** `a || d` for a numeric argument: an absent or zero argument is falsy
      and is replaced by the default `d`. */
  function OrReal(a: Option<real>, d: real): (r: real)
    ensures a.Some? && a.value != 0.0 ==> r == a.value
    ensures a.None? || a.value == 0.0 ==> r == d
  {
    if a.Some? && a.value != 0.0 then a.value else d
  }

  /** Same as `OrReal`, for the octree's integer parameters. */
  function OrInt(a: Option<int>, d: int): (r: int)
    ensures a.Some? && a.value != 0 ==> r == a.value
    ensures a.None? || a.value == 0 ==> r == d
  {
    if a.Some? && a.value != 0 then a.value else d
  }

  /** `Math.floor`: the greatest integer not above `x`. */
  function Floor(x: real): (r: int)
    ensures r as real <= x < r as real + 1.0
  {
    x.Floor
  }

  /** `Math.round`, which JavaScript defines as `floor(x + 0.5)`: halves
      round towards positive infinity. */
  function Round(x: real): (r: int)
    ensures x - 0.5 < r as real <= x + 0.5
  {
    (x + 0.5).Floor
  }

  /** `Math.abs`. */
  function Abs(x: real): (r: real)
    ensures r >= 0.0
    ensures r == x || r == -x
  {
    if x < 0.0 then -x else x
  }

  /** True when `x` has no fractional part. */
  predicate IsWhole(x: real) {
    x == x.Floor as real
  }

  /** Rounding a whole number gives it back, so re-rounding an origin that
      was already rounded changes nothing. */
  lemma RoundWhole(x: real)
    requires IsWhole(x)
    ensures Round(x) as real == x
  {
    var n := x.Floor;
    var r := Round(x);
    assert (r - n) as real == r as real - x;
    assert -1 < r - n < 1;
  }
}
