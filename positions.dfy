/** `Pos`, the integer grid position shared by the 2023 grid puzzles. Its definition is not part of
    this model; it is taken to be a plain pair of signed coordinates. */
module Positions {
  datatype Pos = Pos(x: int, y: int)

  function Abs(i: int): (r: nat)
    ensures r == i || r == -i
  {
    if i < 0 then -i else i
  }

  /** `(a.x - b.x).abs() + (a.y - b.y).abs()`. */
  function Manhattan(a: Pos, b: Pos): (d: nat)
    ensures d == 0 <==> a == b
  {
    Abs(a.x - b.x) + Abs(a.y - b.y)
  }
}
