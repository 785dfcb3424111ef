/** The sticker state of the 3x3x3 cube (cube.py:19-69, game_data.py:17-83)
    and the pure meaning of its two move primitives.

    A cube is six 3x3 faces in the fixed order left, front, right, back,
    up, down.  Every move is given as a SOURCE MAP: the sticker that ends up
    at a position is the one that stood, before the move, at the position
    the map names.  All reads are against the state before the move, which
    is what the source's deep-copy snapshots achieve. */
module CubeModel {
  import opened Text

  datatype Colour = Orange | Green | Red | Blue | White | Yellow

  type Index = i: int | 0 <= i < 3

  type Row = r: seq<Colour> | |r| == 3 witness [Orange, Orange, Orange]

  type Face = f: seq<Row> | |f| == 3
    witness [[Orange, Orange, Orange], [Orange, Orange, Orange], [Orange, Orange, Orange]]

  type Cube = c: seq<Face> | |c| == 6
    witness var f: Face := [[Orange, Orange, Orange], [Orange, Orange, Orange], [Orange, Orange, Orange]];
            [f, f, f, f, f, f]

  const LeftFace := 0
  const FrontFace := 1
  const RightFace := 2
  const BackFace := 3
  const UpFace := 4
  const DownFace := 5

  /** A sticker position: face 0..5, row 0..2, column 0..2. */
  datatype Pos = Pos(face: int, row: int, col: int)

  predicate ValidPos(p: Pos)
  {
    0 <= p.face < 6 && 0 <= p.row < 3 && 0 <= p.col < 3
  }

  function At(c: Cube, p: Pos): Colour
    requires ValidPos(p)
  {
    c[p.face][p.row][p.col]
  }

  /** Two cubes are equal when they agree at every position. */
  lemma CubeExtensionality(a: Cube, b: Cube)
    requires forall p :: ValidPos(p) ==> At(a, p) == At(b, p)
    ensures a == b
  {
    forall f | 0 <= f < 6
      ensures a[f] == b[f]
    {
      forall i | 0 <= i < 3
        ensures a[f][i] == b[f][i]
      {
        forall j | 0 <= j < 3
          ensures a[f][i][j] == b[f][i][j]
        {
          assert At(a, Pos(f, i, j)) == At(b, Pos(f, i, j));
        }
      }
    }
  }

  function Uniform(x: Colour): Face
  {
    [[x, x, x], [x, x, x], [x, x, x]]
  }

  /** `default_cube`: orange, green, red, blue, white, yellow. */
  const DefaultCube: Cube :=
    [Uniform(Orange), Uniform(Green), Uniform(Red), Uniform(Blue), Uniform(White), Uniform(Yellow)]

  /** `numpy.rot90(face, k=1, axes=(0, 1))`: a quarter turn counter-clockwise. */
  function SpinCcw(f: Face): Face
  {
    seq(3, i requires 0 <= i < 3 => var r: Row := seq(3, j requires 0 <= j < 3 => f[j][2 - i]); r)
  }

  /** `numpy.rot90(face, k=1, axes=(1, 0))`: a quarter turn clockwise. */
  function SpinCw(f: Face): Face
  {
    seq(3, i requires 0 <= i < 3 => var r: Row := seq(3, j requires 0 <= j < 3 => f[2 - j][i]); r)
  }

  /** Two faces are equal when they agree at every cell. */
  lemma FaceExtensionality(a: Face, b: Face)
    requires forall i, j | 0 <= i < 3 && 0 <= j < 3 :: a[i][j] == b[i][j]
    ensures a == b
  {
    forall i | 0 <= i < 3
      ensures a[i] == b[i]
    {
      assert a[i][0] == b[i][0] && a[i][1] == b[i][1] && a[i][2] == b[i][2];
    }
  }

  lemma SpinsAreInverse(f: Face)
    ensures SpinCw(SpinCcw(f)) == f && SpinCcw(SpinCw(f)) == f
  {
    FaceExtensionality(SpinCw(SpinCcw(f)), f);
    FaceExtensionality(SpinCcw(SpinCw(f)), f);
  }

  // ---------------------------------------------------------------------
  // One slice turn (one pass of the loop body of `turn`, cube.py:595-631)

  /** Where the sticker at `p` comes from after one forward turn of row
      (`rowCol`) or column (`!rowCol`) `n`. */
  function TurnSource(rowCol: bool, n: Index, p: Pos): (q: Pos)
    requires ValidPos(p)
    ensures ValidPos(q)
  {
    var f, i, j := p.face, p.row, p.col;
    if rowCol then
      // right <- front <- left <- back <- right, row n of each
      if f < 4 && i == n then Pos(if f == 0 then 3 else f - 1, i, j)
      else if f == UpFace && n == 0 then Pos(UpFace, j, 2 - i)       // counter-clockwise
      else if f == DownFace && n == 2 then Pos(DownFace, 2 - j, i)   // clockwise
      else p
    else
      // front <- down, down <- back (flipped), back <- up (flipped), up <- front
      if f == FrontFace && j == n then Pos(DownFace, i, n)
      else if f == DownFace && j == n then Pos(BackFace, 2 - i, 2 - n)
      else if f == BackFace && j == 2 - n then Pos(UpFace, 2 - i, n)
      else if f == UpFace && j == n then Pos(FrontFace, i, n)
      else if f == LeftFace && n == 0 then Pos(LeftFace, j, 2 - i)   // counter-clockwise
      else if f == RightFace && n == 2 then Pos(RightFace, 2 - j, i) // clockwise
      else p
  }

  /** One forward pass of `turn(row_col, n)`. */
  function TurnOnce(c: Cube, rowCol: bool, n: Index): Cube
  {
    seq(6, f requires 0 <= f < 6 =>
      var face: Face := seq(3, i requires 0 <= i < 3 =>
        var row: Row := seq(3, j requires 0 <= j < 3 => At(c, TurnSource(rowCol, n, Pos(f, i, j))));
        row);
      face)
  }

  /** `turn(row_col, n, backwards)`: one pass, or three when `backwards`. */
  function Turned(c: Cube, rowCol: bool, n: Index, backwards: bool): Cube
  {
    if backwards then TurnOnce(TurnOnce(TurnOnce(c, rowCol, n), rowCol, n), rowCol, n)
    else TurnOnce(c, rowCol, n)
  }

  // ---------------------------------------------------------------------
  // Whole-cube rotations (`rotate`, cube.py:634-677)

  const AxisX: Text := FromString("x")
  const AxisY: Text := FromString("y")
  const AxisZ: Text := FromString("z")

  lemma AxesDistinct()
    ensures AxisX != AxisY && AxisX != AxisZ && AxisY != AxisZ
  {
    assert AxisX[0] != AxisY[0] && AxisX[0] != AxisZ[0] && AxisY[0] != AxisZ[0];
  }

  /** Where the sticker at `p` comes from after `rotate("z")`: front spins
      clockwise, back counter-clockwise, and `face[j][2 - i] <- other[i][j]`
      for left <- down, up <- left, right <- up, down <- right. */
  function ZSource(p: Pos): (q: Pos)
    requires ValidPos(p)
    ensures ValidPos(q)
  {
    var f, a, b := p.face, p.row, p.col;
    if f == FrontFace then Pos(FrontFace, 2 - b, a)
    else if f == BackFace then Pos(BackFace, b, 2 - a)
    else if f == LeftFace then Pos(DownFace, 2 - b, a)
    else if f == UpFace then Pos(LeftFace, 2 - b, a)
    else if f == RightFace then Pos(UpFace, 2 - b, a)
    else Pos(RightFace, 2 - b, a)
  }

  function RotateZ(c: Cube): Cube
  {
    seq(6, f requires 0 <= f < 6 =>
      var face: Face := seq(3, i requires 0 <= i < 3 =>
        var row: Row := seq(3, j requires 0 <= j < 3 => At(c, ZSource(Pos(f, i, j))));
        row);
      face)
  }

  /** `rotate(axis)`: `x` is the forward turns of rows 0, 1, 2 in order,
      `y` those of columns 0, 1, 2, `z` the explicit remap; any other axis
      leaves the faces as they are. */
  function Rotated(c: Cube, axis: Text): Cube
  {
    if axis == AxisX then TurnOnce(TurnOnce(TurnOnce(c, true, 0), true, 1), true, 2)
    else if axis == AxisY then TurnOnce(TurnOnce(TurnOnce(c, false, 0), false, 1), false, 2)
    else if axis == AxisZ then RotateZ(c)
    else c
  }

  // ---------------------------------------------------------------------
  // Solvedness (`check_solved`, cube.py:742-758)

  /** Every sticker equals the centre sticker of its own face. */
  predicate IsSolved(c: Cube)
  {
    forall f, i, j | 0 <= f < 6 && 0 <= i < 3 && 0 <= j < 3 :: c[f][i][j] == c[f][1][1]
  }
}
