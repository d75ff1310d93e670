/**
 JavaScript's `Math.round` over exact rationals: the nearest integer, with
 halves rounded toward positive infinity (so 2.5 goes to 3 and -2.5 to -2).
 */
module Rounding {

  function JsRound(x: real): (r: int)
    ensures r as real - 0.5 <= x < r as real + 0.5
  {
    (x + 0.5).Floor
  }

  /** The result is the only integer within half a unit below and strictly less than half above. */
  lemma JsRoundUnique(x: real, n: int)
    requires n as real - 0.5 <= x < n as real + 0.5
    ensures JsRound(x) == n
  {
  }

  /** Integers are fixed points, so a modifier of 1 keeps a whole construction time. */
  lemma JsRoundOfInteger(n: int)
    ensures JsRound(n as real) == n
  {
  }

  /** 1000 * 1.5 is exactly 1500; 1001 * 1.5 = 1501.5 rounds half up to 1502; -2.5 rounds to -2. */
  lemma JsRoundScenarios()
    ensures JsRound(1000 as real * 1.5) == 1500
    ensures JsRound(1001 as real * 1.5) == 1502
    ensures JsRound(-2.5) == -2
  {
    JsRoundUnique(1001 as real * 1.5, 1502);
    JsRoundUnique(-2.5, -2);
  }
}
