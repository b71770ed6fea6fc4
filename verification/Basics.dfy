/** Small definitions that several components share. */
module Basics {
  datatype Option<T> = None | Some(value: T)

  function Abs(x: real): real {
    if x < 0.0 then -x else x
  }

  function Clamp(x: real, lo: real, hi: real): real {
    if x < lo then lo else if x > hi then hi else x
  }

  function Least(a: int, b: int): int {
    if a <= b then a else b
  }

  /** n bytes of the same value. */
  function Fill(n: nat, b: bv8): (s: seq<bv8>)
    ensures |s| == n && forall i :: 0 <= i < n ==> s[i] == b
  {
    if n == 0 then [] else Fill(n - 1, b) + [b]
  }
}
