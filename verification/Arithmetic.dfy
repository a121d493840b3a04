/** Machine limits and the few facts about integers that several modules need. */
module Arithmetic {

  const UINT8_MAX := 255
  const UINT16_MAX := 65535

  function Abs(x: int): nat {
    if x < 0 then -x else x
  }

  function Max(a: nat, b: nat): nat {
    if a < b then b else a
  }

  lemma Grows(a: int, b: int, n: nat)
    ensures a <= b ==> a * n <= b * n
  {
    if a <= b {
      assert (b - a) * n >= 0;
    }
  }
}
