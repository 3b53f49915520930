/** The lesser, the greater, and what is left of a number when it may not be negative. */
module Integers {

  function Least(a: int, b: int): int {
    if a < b then a else b
  }

  function Greatest(a: int, b: int): int {
    if a < b then b else a
  }

  function Clamped(x: int): nat {
    if x < 0 then 0 else x
  }
}
