/** Magnitudes and extremes. */
module Numbers {

  function Abs(x: real): (r: real)
    ensures r >= 0.0
  {
    if x >= 0.0 then x else -x
  }

  function Larger(a: real, b: real): real {
    if a >= b then a else b
  }

  function Lesser(a: nat, b: nat): nat {
    if a <= b then a else b
  }
}
