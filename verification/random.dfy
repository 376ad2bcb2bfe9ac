/** Values of Math.random() and the index idiom built on them. */
module Randomness {
  /** A number Math.random() can return: in [0, 1). */
  type Draw = r: real | 0.0 <= r < 1.0

  /** Math.floor(draw * n): a position in a list of length n > 0. */
  function RandomIndex(roll: Draw, n: nat): (k: nat)
    ensures n > 0 ==> k < n
    ensures n == 0 ==> k == 0
  {
    var x := roll * n as real;
    assert 0.0 <= roll < 1.0;
    assert x >= 0.0;
    assert n > 0 ==> x < 1.0 * n as real;
    assert x.Floor as real <= x;
    x.Floor
  }
}
