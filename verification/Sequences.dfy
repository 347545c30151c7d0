/** Sequences of one repeated item. */
module Sequences {
  function Repeated<T>(x: T, n: nat): (s: seq<T>)
    ensures |s| == n && forall i :: 0 <= i < n ==> s[i] == x
  {
    if n == 0 then [] else Repeated(x, n - 1) + [x]
  }
}
