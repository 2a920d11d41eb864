/** The `clip<T>` template of the visualizer header, instantiated at `double`
    (the only type it is used with), modelled on `real`. */
module ClipTemplate {

  /** `std::max(lower, std::min(x, upper))`. */
  function Clip(x: real, lower: real, upper: real): (r: real)
    ensures lower <= upper ==> lower <= r <= upper
    ensures lower <= x <= upper ==> r == x
    ensures lower > upper ==> r == lower
    ensures r == lower || r == x || r == upper
  {
    if x < upper then (if lower < x then x else lower)
    else (if lower < upper then upper else lower)
  }

  /** Clipping twice is clipping once. */
  lemma ClipIdempotent(x: real, lower: real, upper: real)
    ensures Clip(Clip(x, lower, upper), lower, upper) == Clip(x, lower, upper)
  {
  }

  /** `clip` is non-decreasing in its first argument. */
  lemma ClipMonotone(x: real, y: real, lower: real, upper: real)
    requires x <= y
    ensures Clip(x, lower, upper) <= Clip(y, lower, upper)
  {
  }
}
