/**
 * lodash `shuffle` (Fisher-Yates): position i is swapped with a position
 * drawn from i up to the last index. The random draws are a parameter: draw i
 * is taken modulo the number of positions left, and missing draws count as 0.
 */
module Shuffle {

  function Shuffle<T>(xs: seq<T>, draws: seq<nat>): (r: seq<T>)
    ensures |r| == |xs|
    ensures multiset(r) == multiset(xs)
    decreases |xs|
  {
    if |xs| <= 1 then xs
    else
      var k := (if |draws| > 0 then draws[0] else 0) % |xs|;
      var swapped := xs[0 := xs[k]][k := xs[0]];
      assert multiset(swapped) == multiset(xs);
      assert [swapped[0]] + swapped[1..] == swapped;
      [swapped[0]] + Shuffle(swapped[1..], if |draws| > 0 then draws[1..] else [])
  }

}
