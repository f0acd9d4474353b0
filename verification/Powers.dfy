/** Powers of two. */
module Powers {

  function Pow2(m: nat): (r: nat)
    ensures r > 0
  {
    if m == 0 then 1 else 2 * Pow2(m - 1)
  }
}
