/** `std::min` and `std::max` as the C++ library defines them, on values that
    compare normally (floating point is modelled by reals). */
module Reals {

  function Min(a: real, b: real): (m: real)
    ensures m <= a && m <= b && (m == a || m == b)
  {
    if b < a then b else a
  }

  function Max(a: real, b: real): (m: real)
    ensures m >= a && m >= b && (m == a || m == b)
  {
    if a < b then b else a
  }
}
