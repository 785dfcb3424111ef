/** Screen-position validation (validation.py:10-75): a position is valid
    inside both the current window and a 3840 x 2160 (4K) screen. */
module Validation {
  import opened Wrappers

  /** The largest valid coordinates on a 4K screen. */
  const MaxX := 3840
  const MaxY := 2160

  /** `InvalidScreenPosition(pos)` (validation.py:10-21). */
  datatype InvalidScreenPosition = InvalidScreenPosition(pos: (int, int))

  function Min(a: int, b: int): int
  {
    if a <= b then a else b
  }

  /** A position inside the window and the screen, both edges included. */
  predicate OnScreen(pos: (int, int), width: int, height: int)
  {
    0 <= pos.0 <= Min(width, MaxX) && 0 <= pos.1 <= Min(height, MaxY)
  }

  class ValidateScreenPositions {
    var width: int
    var height: int

    /** `ValidateScreenPositions(width, height)` */
    constructor(width: int, height: int)
      ensures this.width == width && this.height == height
    {
      this.width := width;
      this.height := height;
    }

    /** `run(pos)` (validation.py:42-65): the position itself when it lies
        on the screen, and otherwise the `InvalidScreenPosition` error for
        it. */
    function Run(pos: (int, int)): (r: Result<(int, int), InvalidScreenPosition>)
      reads this
      ensures r.Ok? <==> OnScreen(pos, width, height)
      ensures r.Ok? ==> r.value == pos
      ensures r.Err? ==> r.error == InvalidScreenPosition(pos)
    {
      if pos.0 < 0 || pos.0 > width || pos.0 > MaxX || pos.1 < 0 || pos.1 > height || pos.1 > MaxY
      then Err(InvalidScreenPosition(pos))
      else Ok(pos)
    }

    /** `update_size(size)` (validation.py:67-75): later checks use the new
        bounds. */
    method UpdateSize(size: (int, int))
      modifies this
      ensures width == size.0 && height == size.1
      ensures forall pos :: Run(pos).Ok? <==> OnScreen(pos, size.0, size.1)
    {
      width := size.0;
      height := size.1;
    }
  }

  /** The bounds are inclusive: the corner of the window is valid whenever
      it lies on the screen. */
  lemma CornerIsValid(v: ValidateScreenPositions)
    requires 0 <= v.width <= MaxX && 0 <= v.height <= MaxY
    ensures v.Run((v.width, v.height)) == Ok((v.width, v.height))
    ensures v.Run((0, 0)) == Ok((0, 0))
  {
  }

  /** One step past any edge is refused. */
  lemma PastEdgeIsInvalid(v: ValidateScreenPositions, x: int, y: int)
    ensures v.Run((-1, y)).Err? && v.Run((x, -1)).Err?
    ensures v.Run((Min(v.width, MaxX) + 1, y)).Err?
    ensures v.Run((x, Min(v.height, MaxY) + 1)).Err?
  {
  }
}
