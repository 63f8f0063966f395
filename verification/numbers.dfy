/** `Math.abs` on the exact reals that stand for the viewer's numbers. */
module Numbers {
  function Abs(x: real): (r: real)
    ensures r >= 0.0 && (r == x || r == -x)
  {
    if x < 0.0 then -x else x
  }
}
