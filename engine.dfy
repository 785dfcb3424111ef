/** The move engine: the cube being played (`used_cube`), the record of
    moves (`moves`) and the scrambler count, changed in place by `turn`,
    `rotate` and `scramble` (cube.py:570-692, Commented/2/2.1/cube.py:480-605,
    features.py:27-44), and the undo-based `Solver` (cube.py:695-786,
    Commented/2/2.1/cube.py:608-686, features.py:47-140).

    Every method is specified by the pure move functions of `CubeModel`:
    a pass reads from a snapshot taken before it writes, so the new cube is
    a function of the old one. */
module Engine {
  import opened Wrappers
  import opened Text
  import opened CubeModel
  import opened CubeLaws
  import opened Moves
  import opened MoveStacks

  /** The three `randint` draws of one scrambler turn: `bool(randint(0, 1))`,
      `randint(0, 2)` and `bool(randint(0, 1))`. */
  datatype Draw = Draw(direction: bool, number: Index, backwards: bool)

  function DrawMove(d: Draw): Move
  {
    Turn(d.direction, d.number, d.backwards)
  }

  /** The turns a sequence of draws makes, in order. */
  function DrawMoves(ds: seq<Draw>): (ms: seq<Move>)
    ensures |ms| == |ds|
  {
    seq(|ds|, k requires 0 <= k < |ds| => DrawMove(ds[k]))
  }

  /** `used_cube[f][i][j] = x` */
  function SetCell(c: Cube, f: int, i: int, j: int, x: Colour): (r: Cube)
    requires 0 <= f < 6 && 0 <= i < 3 && 0 <= j < 3
    ensures forall p | ValidPos(p) :: At(r, p) == if p == Pos(f, i, j) then x else At(c, p)
  {
    var row: Row := c[f][i][j := x];
    var face: Face := c[f][i := row];
    c[f := face]
  }

  /** `k` forward passes of one slice. */
  function TurnTimes(c: Cube, rowCol: bool, n: Index, k: nat): Cube
  {
    if k == 0 then c else TurnOnce(TurnTimes(c, rowCol, n, k - 1), rowCol, n)
  }

  /** The forward turns of slices 0 .. k-1 in order, as `rotate` makes them
      for `x` (rows) and `y` (columns). */
  function SlicesTurned(c: Cube, rowCol: bool, k: nat): Cube
    requires k <= 3
  {
    if k == 0 then c else TurnOnce(SlicesTurned(c, rowCol, k - 1), rowCol, k - 1)
  }

  /** The cells a column pass at `n` has written once its loop has run for
      offsets 0 .. i-1: front[k][n], down[2-k][n], back[2-k][2-n], up[k][n]. */
  predicate ColumnWritten(n: Index, i: int, p: Pos)
  {
    || ((p.face == FrontFace || p.face == UpFace) && p.col == n && p.row < i)
    || (p.face == DownFace && p.col == n && 2 - p.row < i)
    || (p.face == BackFace && p.col == 2 - n && 2 - p.row < i)
  }

  /** The cells the `z` loops have written once `j` rows and then `i` more
      cells of row `j` are done: left, up, right and down at [j][2-i]. */
  predicate ZWritten(j: int, i: int, p: Pos)
  {
    && (p.face == LeftFace || p.face == UpFace || p.face == RightFace || p.face == DownFace)
    && (p.row < j || (p.row == j && 2 - p.col < i))
  }

  /** Every sticker equals its face's centre on the faces before `f`. */
  predicate FacesSolved(c: Cube, f: int)
    requires 0 <= f <= 6
  {
    forall g, j, k | 0 <= g < f && 0 <= j < 3 && 0 <= k < 3 :: c[g][j][k] == c[g][1][1]
  }

  /** Every sticker equals `x` on the rows before `j` of `face`. */
  predicate RowsMatch(face: Face, j: int, x: Colour)
    requires 0 <= j <= 3
  {
    forall r, k | 0 <= r < j && 0 <= k < 3 :: face[r][k] == x
  }

  /** Every sticker equals `x` in the cells before `k` of `row`. */
  predicate CellsMatch(row: Row, k: int, x: Colour)
    requires 0 <= k <= 3
  {
    forall q | 0 <= q < k :: row[q] == x
  }

  /** The top record of a stack is one `pop_move` can replay. */
  predicate TopDecodes(s: seq<MoveDict>)
  {
    s != [] ==> Decode(s[|s| - 1]).Some?
  }

  /** Once row `n` of every side face holds the row of the face before it
      in the cycle, the cap spin completes one row pass. */
  lemma RowFinish(s: Cube, n: Index, w: Cube)
    requires forall f | 0 <= f < 4 :: w[f] == s[f][n := s[if f == 0 then 3 else f - 1][n]]
    requires w[UpFace] == s[UpFace] && w[DownFace] == s[DownFace]
    ensures w[UpFace := if n == 0 then SpinCcw(w[UpFace]) else w[UpFace]]
             [DownFace := if n == 2 then SpinCw(w[DownFace]) else w[DownFace]] == TurnOnce(s, true, n)
  {
    var r := TurnOnce(s, true, n);
    forall f | 0 <= f < 4
      ensures w[f] == r[f]
    {
      RowTurnSideRow(s, n, f, 0);
      RowTurnSideRow(s, n, f, 1);
      RowTurnSideRow(s, n, f, 2);
      assert w[f][0] == r[f][0] && w[f][1] == r[f][1] && w[f][2] == r[f][2];
    }
    RowTurnUp(s, n);
    RowTurnDown(s, n);
    assert w[UpFace := if n == 0 then SpinCcw(w[UpFace]) else w[UpFace]]
            [DownFace := if n == 2 then SpinCw(w[DownFace]) else w[DownFace]] == r;
  }

  /** The state of a column pass after the offsets before `i`. */
  ghost predicate ColumnLoopInv(c: Cube, s: Cube, n: Index, i: int)
  {
    forall p | ValidPos(p) ::
      At(c, p) == if ColumnWritten(n, i, p) then At(s, TurnSource(false, n, p)) else At(s, p)
  }

  /** The four writes for offset `i` extend the written region by offset `i`. */
  lemma ColumnStep(s: Cube, n: Index, i: int, c0: Cube, c1: Cube, c2: Cube, c3: Cube, c4: Cube)
    requires 0 <= i < 3 && ColumnLoopInv(c0, s, n, i)
    requires c1 == SetCell(c0, FrontFace, i, n, s[DownFace][i][n])
    requires c2 == SetCell(c1, DownFace, 2 - i, n, s[BackFace][i][2 - n])
    requires c3 == SetCell(c2, BackFace, 2 - i, 2 - n, s[UpFace][i][n])
    requires c4 == SetCell(c3, UpFace, i, n, s[FrontFace][i][n])
    ensures ColumnLoopInv(c4, s, n, i + 1)
  {
    forall p | ValidPos(p)
      ensures At(c4, p) == if ColumnWritten(n, i + 1, p) then At(s, TurnSource(false, n, p)) else At(s, p)
    {
      assert At(c0, p) == if ColumnWritten(n, i, p) then At(s, TurnSource(false, n, p)) else At(s, p);
    }
  }

  /** With every offset written, the faces the column passes through hold
      what one column pass puts there, and the caps are untouched. */
  lemma ColumnWrittenAt(s: Cube, n: Index, w: Cube, p: Pos)
    requires ColumnLoopInv(w, s, n, 3) && ValidPos(p)
    ensures p.face != LeftFace && p.face != RightFace ==> At(w, p) == At(TurnOnce(s, false, n), p)
    ensures p.face == LeftFace || p.face == RightFace ==> At(w, p) == At(s, p)
  {
    TurnOnceAt(s, false, n, p);
  }

  lemma ColumnCapAt(s: Cube, n: Index, w: Cube, i: int, j: int)
    requires ColumnLoopInv(w, s, n, 3) && 0 <= i < 3 && 0 <= j < 3
    ensures (if n == 0 then SpinCcw(w[LeftFace]) else w[LeftFace])[i][j] == TurnOnce(s, false, n)[LeftFace][i][j]
    ensures (if n == 2 then SpinCw(w[RightFace]) else w[RightFace])[i][j] == TurnOnce(s, false, n)[RightFace][i][j]
  {
    LeftCell(s, n, i, j);
    RightCell(s, n, i, j);
    ColumnWrittenAt(s, n, w, Pos(LeftFace, i, j));
    ColumnWrittenAt(s, n, w, Pos(LeftFace, j, 2 - i));
    ColumnWrittenAt(s, n, w, Pos(RightFace, i, j));
    ColumnWrittenAt(s, n, w, Pos(RightFace, 2 - j, i));
  }

  /** With every offset written, the cap spin completes one column pass. */
  lemma ColumnFinish(s: Cube, n: Index, w: Cube)
    requires ColumnLoopInv(w, s, n, 3)
    ensures w[LeftFace := if n == 0 then SpinCcw(w[LeftFace]) else w[LeftFace]]
             [RightFace := if n == 2 then SpinCw(w[RightFace]) else w[RightFace]] == TurnOnce(s, false, n)
  {
    var r := TurnOnce(s, false, n);
    var left := if n == 0 then SpinCcw(w[LeftFace]) else w[LeftFace];
    var right := if n == 2 then SpinCw(w[RightFace]) else w[RightFace];
    forall i, j | 0 <= i < 3 && 0 <= j < 3
      ensures left[i][j] == r[LeftFace][i][j] && right[i][j] == r[RightFace][i][j]
    {
      ColumnCapAt(s, n, w, i, j);
    }
    FaceExtensionality(left, r[LeftFace]);
    FaceExtensionality(right, r[RightFace]);
    forall f | 0 <= f < 6 && f != LeftFace && f != RightFace
      ensures w[f] == r[f]
    {
      forall i, j | 0 <= i < 3 && 0 <= j < 3
        ensures w[f][i][j] == r[f][i][j]
      {
        ColumnWrittenAt(s, n, w, Pos(f, i, j));
      }
      FaceExtensionality(w[f], r[f]);
    }
    assert w[LeftFace := left][RightFace := right] == r;
  }

  /** One more draw makes one more turn after the earlier ones and records
      it after theirs. */
  lemma ScrambleStep(c: Cube, draws: seq<Draw>, k: nat)
    requires k < |draws|
    ensures Replay(c, DrawMoves(draws[..k + 1])) == Apply(Replay(c, DrawMoves(draws[..k])), DrawMove(draws[k]))
    ensures EncodeAll(DrawMoves(draws[..k + 1])) == EncodeAll(DrawMoves(draws[..k])) + [Encode(DrawMove(draws[k]))]
  {
    var ms := DrawMoves(draws[..k + 1]);
    assert ms[..k] == DrawMoves(draws[..k]);
    assert ms[k] == DrawMove(draws[k]);
  }

  /** The state of the `z` branch once the cells before row `j`, cell `i`
      are copied: copied cells hold their `ZSource`, front and back their
      spun faces, and every other cell its old sticker. */
  ghost predicate ZLoopInv(c: Cube, s: Cube, j: int, i: int)
  {
    forall p | ValidPos(p) ::
      At(c, p) == if ZWritten(j, i, p) || p.face == FrontFace || p.face == BackFace
                  then At(s, ZSource(p)) else At(s, p)
  }

  lemma ZStart(s: Cube, c: Cube)
    requires c == s[FrontFace := SpinCw(s[FrontFace])][BackFace := SpinCcw(s[BackFace])]
    ensures ZLoopInv(c, s, 0, 0)
  {
  }

  /** The four copies for row `j`, cell `i` extend the copied region by
      one cell. */
  lemma ZStep(s: Cube, j: int, i: int, c0: Cube, c1: Cube, c2: Cube, c3: Cube, c4: Cube)
    requires 0 <= j < 3 && 0 <= i < 3 && ZLoopInv(c0, s, j, i)
    requires c1 == SetCell(c0, LeftFace, j, 2 - i, s[DownFace][i][j])
    requires c2 == SetCell(c1, UpFace, j, 2 - i, s[LeftFace][i][j])
    requires c3 == SetCell(c2, RightFace, j, 2 - i, s[UpFace][i][j])
    requires c4 == SetCell(c3, DownFace, j, 2 - i, s[RightFace][i][j])
    ensures ZLoopInv(c4, s, j, i + 1)
  {
    forall p | ValidPos(p)
      ensures At(c4, p) == if ZWritten(j, i + 1, p) || p.face == FrontFace || p.face == BackFace
                           then At(s, ZSource(p)) else At(s, p)
    {
      ZStepAt(s, j, i, c0, c1, c2, c3, c4, p);
    }
  }

  /** `ZStep` at one position. */
  lemma ZStepAt(s: Cube, j: int, i: int, c0: Cube, c1: Cube, c2: Cube, c3: Cube, c4: Cube, p: Pos)
    requires 0 <= j < 3 && 0 <= i < 3 && ValidPos(p)
    requires At(c0, p) == if ZWritten(j, i, p) || p.face == FrontFace || p.face == BackFace
                          then At(s, ZSource(p)) else At(s, p)
    requires c1 == SetCell(c0, LeftFace, j, 2 - i, s[DownFace][i][j])
    requires c2 == SetCell(c1, UpFace, j, 2 - i, s[LeftFace][i][j])
    requires c3 == SetCell(c2, RightFace, j, 2 - i, s[UpFace][i][j])
    requires c4 == SetCell(c3, DownFace, j, 2 - i, s[RightFace][i][j])
    ensures At(c4, p) == if ZWritten(j, i + 1, p) || p.face == FrontFace || p.face == BackFace
                         then At(s, ZSource(p)) else At(s, p)
  {
    var here := p.row == j && p.col == 2 - i;
    assert At(c1, p) == if p == Pos(LeftFace, j, 2 - i) then s[DownFace][i][j] else At(c0, p);
    assert At(c2, p) == if p == Pos(UpFace, j, 2 - i) then s[LeftFace][i][j] else At(c1, p);
    assert At(c3, p) == if p == Pos(RightFace, j, 2 - i) then s[UpFace][i][j] else At(c2, p);
    assert At(c4, p) == if p == Pos(DownFace, j, 2 - i) then s[RightFace][i][j] else At(c3, p);
    if here && p.face != FrontFace && p.face != BackFace {
      assert ZWritten(j, i + 1, p) && !ZWritten(j, i, p);
    } else {
      assert ZWritten(j, i + 1, p) == ZWritten(j, i, p);
      assert At(c4, p) == At(c0, p);
    }
  }

  lemma ZNextRow(s: Cube, j: int, c: Cube)
    requires 0 <= j < 3 && ZLoopInv(c, s, j, 3)
    ensures ZLoopInv(c, s, j + 1, 0)
  {
    forall p | ValidPos(p)
      ensures ZWritten(j, 3, p) == ZWritten(j + 1, 0, p)
    {
    }
  }

  /** Once every cell is copied, the cube is `RotateZ` of the snapshot. */
  lemma ZFinish(s: Cube, c: Cube)
    requires ZLoopInv(c, s, 3, 0)
    ensures c == RotateZ(s)
  {
    forall p | ValidPos(p)
      ensures At(c, p) == At(RotateZ(s), p)
    {
      RotateZAt(s, p);
    }
    CubeExtensionality(c, RotateZ(s));
  }

  class Game {
    /** `used_cube` */
    var cube: Cube
    /** `moves` */
    const moves: MoveStack
    /** `scrambler_count` */
    var scramblerCount: int

    /** The start of play: `used_cube` is a copy of `default_cube`, and no
        moves are recorded (game_data.py:83, game_data.py:155-164). */
    constructor()
      ensures cube == DefaultCube && fresh(moves) && moves.stack == [] && scramblerCount == 0
    {
      cube := DefaultCube;
      moves := new MoveStack();
      scramblerCount := 0;
    }

    /** One row pass (cube.py:608-618): the side rows move round from
        snapshots, then up or down spins. */
    method RowPass(n: Index)
      modifies this
      ensures cube == TurnOnce(old(cube), true, n)
      ensures scramblerCount == old(scramblerCount)
    {
      var s := cube;
      cube := cube[RightFace := cube[RightFace][n := s[FrontFace][n]]];
      cube := cube[BackFace := cube[BackFace][n := s[RightFace][n]]];
      cube := cube[LeftFace := cube[LeftFace][n := s[BackFace][n]]];
      cube := cube[FrontFace := cube[FrontFace][n := s[LeftFace][n]]];
      RowFinish(s, n, cube);
      if n == 0 {
        cube := cube[UpFace := SpinCcw(cube[UpFace])];
      } else if n == 2 {
        cube := cube[DownFace := SpinCw(cube[DownFace])];
      }
    }

    /** One column pass (cube.py:619-631): a loop over the row offsets
        writes the four cycled cells from snapshots, then left or right
        spins. */
    method ColumnPass(n: Index)
      modifies this
      ensures cube == TurnOnce(old(cube), false, n)
      ensures scramblerCount == old(scramblerCount)
    {
      var s := cube;
      for i := 0 to 3
        invariant ColumnLoopInv(cube, s, n, i)
        invariant scramblerCount == old(scramblerCount)
      {
        ghost var c0 := cube;
        cube := SetCell(cube, FrontFace, i, n, s[DownFace][i][n]);
        ghost var c1 := cube;
        cube := SetCell(cube, DownFace, 2 - i, n, s[BackFace][i][2 - n]);
        ghost var c2 := cube;
        cube := SetCell(cube, BackFace, 2 - i, 2 - n, s[UpFace][i][n]);
        ghost var c3 := cube;
        cube := SetCell(cube, UpFace, i, n, s[FrontFace][i][n]);
        ColumnStep(s, n, i, c0, c1, c2, c3, cube);
      }
      ColumnFinish(s, n, cube);
      if n == 0 {
        cube := cube[LeftFace := SpinCcw(cube[LeftFace])];
      } else if n == 2 {
        cube := cube[RightFace := SpinCw(cube[RightFace])];
      }
    }

    /** One pass of the loop body of `turn` (cube.py:595-631). */
    method TurnPass(rowCol: bool, n: Index)
      modifies this
      ensures cube == TurnOnce(old(cube), rowCol, n)
      ensures scramblerCount == old(scramblerCount)
    {
      if rowCol {
        RowPass(n);
      } else {
        ColumnPass(n);
      }
    }

    /** `turn(row_col, number, backwards, ignore_moves)` (cube.py:570-631):
        records the move unless `ignore_moves`, then makes one forward pass,
        or three when `backwards`. */
    method Turn(rowCol: bool, number: Index, backwards: bool, ignoreMoves: bool)
      modifies this, moves
      ensures cube == Turned(old(cube), rowCol, number, backwards)
      ensures moves.stack == if ignoreMoves then old(moves.stack)
                             else old(moves.stack) + [Encode(Move.Turn(rowCol, number, backwards))]
      ensures scramblerCount == old(scramblerCount)
    {
      if !ignoreMoves {
        var ok := moves.Push(Encode(Move.Turn(rowCol, number, backwards)));
      }
      var loop := 1;
      if backwards {
        loop := 3;
      }
      ghost var c0 := cube;
      for k := 0 to loop
        invariant cube == TurnTimes(c0, rowCol, number, k)
        invariant moves.stack == if ignoreMoves then old(moves.stack)
                                 else old(moves.stack) + [Encode(Move.Turn(rowCol, number, backwards))]
        invariant scramblerCount == old(scramblerCount)
      {
        TurnPass(rowCol, number);
      }
      assert TurnTimes(c0, rowCol, number, 1) == TurnOnce(c0, rowCol, number);
      assert TurnTimes(c0, rowCol, number, 2) == TurnOnce(TurnOnce(c0, rowCol, number), rowCol, number);
    }

    /** The `z` branch of `rotate` (cube.py:665-677): front and back spin,
        then two loops copy the four side faces round from snapshots. */
    method RotateAboutZ()
      modifies this
      ensures cube == RotateZ(old(cube))
      ensures scramblerCount == old(scramblerCount)
    {
      var s := cube;
      cube := cube[FrontFace := SpinCw(cube[FrontFace])];
      cube := cube[BackFace := SpinCcw(cube[BackFace])];
      ZStart(s, cube);
      for j := 0 to 3
        invariant ZLoopInv(cube, s, j, 0)
        invariant scramblerCount == old(scramblerCount)
      {
        for i := 0 to 3
          invariant ZLoopInv(cube, s, j, i)
          invariant scramblerCount == old(scramblerCount)
        {
          ghost var c0 := cube;
          cube := SetCell(cube, LeftFace, j, 2 - i, s[DownFace][i][j]);
          ghost var c1 := cube;
          cube := SetCell(cube, UpFace, j, 2 - i, s[LeftFace][i][j]);
          ghost var c2 := cube;
          cube := SetCell(cube, RightFace, j, 2 - i, s[UpFace][i][j]);
          ghost var c3 := cube;
          cube := SetCell(cube, DownFace, j, 2 - i, s[RightFace][i][j]);
          ZStep(s, j, i, c0, c1, c2, c3, cube);
        }
        ZNextRow(s, j, cube);
      }
      ZFinish(s, cube);
    }

    /** `rotate(axis, ignore_moves)` (cube.py:634-677): records the rotation
        unless `ignore_moves`; `x` and `y` are three unrecorded forward
        turns of rows or columns 0, 1, 2, `z` the explicit remap, and any
        other axis changes no face. */
    method Rotate(axis: Text, ignoreMoves: bool)
      modifies this, moves
      ensures cube == Rotated(old(cube), axis)
      ensures moves.stack == if ignoreMoves then old(moves.stack)
                             else old(moves.stack) + [Encode(Rotation(axis))]
      ensures scramblerCount == old(scramblerCount)
    {
      if !ignoreMoves {
        var ok := moves.Push(Encode(Rotation(axis)));
      }
      ghost var stack1 := moves.stack;
      ghost var c0 := cube;
      AxesDistinct();
      if axis == AxisX {
        for i := 0 to 3
          invariant cube == SlicesTurned(c0, true, i)
          invariant moves.stack == stack1 && scramblerCount == old(scramblerCount)
        {
          Turn(true, i, false, true);
        }
      } else if axis == AxisY {
        for i := 0 to 3
          invariant cube == SlicesTurned(c0, false, i)
          invariant moves.stack == stack1 && scramblerCount == old(scramblerCount)
        {
          Turn(false, i, false, true);
        }
      } else if axis == AxisZ {
        RotateAboutZ();
      }
      assert SlicesTurned(c0, true, 1) == TurnOnce(c0, true, 0);
      assert SlicesTurned(c0, false, 1) == TurnOnce(c0, false, 0);
    }

    /** One scrambler turn: the drawn turn is made and recorded. */
    method ScrambleOne(d: Draw)
      modifies this, moves
      ensures cube == Apply(old(cube), DrawMove(d))
      ensures moves.stack == old(moves.stack) + [Encode(DrawMove(d))]
      ensures scramblerCount == old(scramblerCount)
    {
      Turn(d.direction, d.number, d.backwards, false);
    }

    /** `scramble` of cube.py:680-692 and Commented/2/2.1/cube.py:593-605:
        one recorded turn per draw, in order.  The number of draws is the
        `randint(15, 25)` of the source. */
    method ScrambleTurns(draws: seq<Draw>)
      requires 15 <= |draws| <= 25
      modifies this, moves
      ensures cube == Replay(old(cube), DrawMoves(draws))
      ensures moves.stack == old(moves.stack) + EncodeAll(DrawMoves(draws))
      ensures scramblerCount == old(scramblerCount)
    {
      ghost var c0, s0 := cube, moves.stack;
      for k := 0 to |draws|
        invariant cube == Replay(c0, DrawMoves(draws[..k]))
        invariant moves.stack == s0 + EncodeAll(DrawMoves(draws[..k]))
        invariant scramblerCount == old(scramblerCount)
      {
        ScrambleStep(c0, draws, k);
        ScrambleOne(draws[k]);
      }
      assert draws[..|draws|] == draws;
    }

    /** `scramble` of features.py:27-44: resets the cube to the default
        layout, stores the count of draws in `scrambler_count`, then makes
        one recorded turn per draw.  The move record is not cleared here;
        its caller does that first (main.py:252-253). */
    method Scramble(draws: seq<Draw>)
      requires 15 <= |draws| <= 25
      modifies this, moves
      ensures cube == Replay(DefaultCube, DrawMoves(draws))
      ensures moves.stack == old(moves.stack) + EncodeAll(DrawMoves(draws))
      ensures scramblerCount == |draws|
    {
      cube := DefaultCube;
      scramblerCount := |draws|;
      ScrambleTurns(draws);
    }

    /** The inverse move `pop_move` makes for one record: three unrecorded
        rotations, or the same turn with `backwards` flipped. */
    method UndoRecord(move: MoveDict)
      requires Decode(move).Some?
      modifies this, moves
      ensures cube == Undo(old(cube), Decode(move).value)
      ensures moves.stack == old(moves.stack) && scramblerCount == old(scramblerCount)
    {
      if KeyRotation in move {
        var axis := move[KeyDirection].s;
        ghost var c0 := cube;
        for k := 0 to 3
          invariant cube == if k == 0 then c0 else if k == 1 then Rotated(c0, axis)
                            else if k == 2 then Rotated(Rotated(c0, axis), axis)
                            else Rotated(Rotated(Rotated(c0, axis), axis), axis)
          invariant moves.stack == old(moves.stack) && scramblerCount == old(scramblerCount)
        {
          Rotate(axis, true);
        }
      } else {
        Turn(move[KeyDirection].b, move[KeyNumber].i, !move[KeyBackwards].b, true);
      }
    }
  }

  class Solver {
    /** Whether the next step is the first of a solve. */
    var first: bool

    constructor()
      ensures first
    {
      first := true;
    }

    /** `check_solved` (cube.py:742-758, features.py:94-112,
        Commented/2/2.1/cube.py:671-686): three loops raise a flag on any
        sticker that differs from its face's centre. */
    method CheckSolved(g: Game) returns (solved: bool)
      ensures solved <==> IsSolved(g.cube)
    {
      var c := g.cube;
      var notSolved := false;
      for f := 0 to 6
        invariant notSolved <==> !FacesSolved(c, f)
      {
        for j := 0 to 3
          invariant notSolved <==> !FacesSolved(c, f) || !RowsMatch(c[f], j, c[f][1][1])
        {
          for k := 0 to 3
            invariant notSolved <==>
              !FacesSolved(c, f) || !RowsMatch(c[f], j, c[f][1][1]) || !CellsMatch(c[f][j], k, c[f][1][1])
          {
            if c[f][j][k] != c[f][1][1] {
              notSolved := true;
            }
          }
        }
      }
      solved := !notSolved;
    }

    /** `pop_move` (cube.py:760-786, features.py:114-140): on an empty
        record it does nothing and answers false; otherwise it pops the top
        record, makes its inverse without recording it, and answers whether
        records remain. */
    static method PopMove(g: Game) returns (more: bool)
      requires TopDecodes(g.moves.stack)
      modifies g, g.moves
      ensures old(g.moves.stack) == [] ==> !more && g.cube == old(g.cube) && g.moves.stack == []
      ensures old(g.moves.stack) != [] ==>
        && g.moves.stack == old(g.moves.stack)[..|old(g.moves.stack)| - 1]
        && g.cube == Undo(old(g.cube), Decode(old(g.moves.stack)[|old(g.moves.stack)| - 1]).value)
        && (more <==> g.moves.stack != [])
      ensures g.scramblerCount == old(g.scramblerCount)
    {
      var size := g.moves.Size();
      if size == 0 {
        return false;
      }
      var move := g.moves.Pop();
      g.UndoRecord(move.value);
      size := g.moves.Size();
      more := size != 0;
    }

    /** `Solver.solve` of cube.py:717-740 and features.py:69-92: nothing
        happens and the answer is false when no moves are recorded or the
        cube is already solved; otherwise one `pop_move` step. */
    method Solve(g: Game) returns (more: bool)
      requires TopDecodes(g.moves.stack)
      modifies this, g, g.moves
      ensures old(g.moves.stack) == [] || IsSolved(old(g.cube)) ==>
        && !more && g.cube == old(g.cube) && g.moves.stack == old(g.moves.stack) && first == old(first)
      ensures old(g.moves.stack) != [] && !IsSolved(old(g.cube)) ==>
        && g.moves.stack == old(g.moves.stack)[..|old(g.moves.stack)| - 1]
        && g.cube == Undo(old(g.cube), Decode(old(g.moves.stack)[|old(g.moves.stack)| - 1]).value)
        && (more <==> g.moves.stack != [])
        && !first
      ensures g.scramblerCount == old(g.scramblerCount)
    {
      var size := g.moves.Size();
      if size == 0 {
        return false;
      }
      var solved := CheckSolved(g);
      if solved {
        return false;
      }
      if first {
        if size > 0 {
          first := false;
        }
      }
      more := PopMove(g);
    }

    /** `Solver.solve` of Commented/2/2.1/cube.py:631-669: the solved check
        comes before the empty check, and the pop and the inverse move are
        written inline.  The order of the two guards makes no difference to
        the outcome. */
    method SolveInline(g: Game) returns (more: bool)
      requires TopDecodes(g.moves.stack)
      modifies this, g, g.moves
      ensures old(g.moves.stack) == [] || IsSolved(old(g.cube)) ==>
        && !more && g.cube == old(g.cube) && g.moves.stack == old(g.moves.stack) && first == old(first)
      ensures old(g.moves.stack) != [] && !IsSolved(old(g.cube)) ==>
        && g.moves.stack == old(g.moves.stack)[..|old(g.moves.stack)| - 1]
        && g.cube == Undo(old(g.cube), Decode(old(g.moves.stack)[|old(g.moves.stack)| - 1]).value)
        && (more <==> g.moves.stack != [])
        && !first
      ensures g.scramblerCount == old(g.scramblerCount)
    {
      var solved := CheckSolved(g);
      if solved {
        return false;
      }
      var size := g.moves.Size();
      if size == 0 {
        return false;
      }
      if first {
        if size > 0 {
          first := false;
        }
      }
      var move := g.moves.Pop();
      g.UndoRecord(move.value);
      size := g.moves.Size();
      more := size != 0;
    }
  }

  /** A scramble from the default layout, then one solver step per recorded
      move, brings the cube back to the default layout. */
  lemma ScrambleThenSolve(draws: seq<Draw>)
    ensures UndoAll(Replay(DefaultCube, DrawMoves(draws)), DrawMoves(draws)) == DefaultCube
  {
    UndoAllReplay(DefaultCube, DrawMoves(draws));
  }

  /** After the first `k` draws of a scramble from the default layout, the
      top record is the `k`-th draw's turn, and undoing it leaves the stack
      and the cube of the first `k - 1` draws. */
  lemma UndoLastDraw(draws: seq<Draw>, k: nat)
    requires 0 < k <= |draws|
    ensures var s := EncodeAll(DrawMoves(draws[..k]));
      && TopDecodes(s)
      && s[..|s| - 1] == EncodeAll(DrawMoves(draws[..k - 1]))
      && Undo(Replay(DefaultCube, DrawMoves(draws[..k])), Decode(s[|s| - 1]).value)
         == Replay(DefaultCube, DrawMoves(draws[..k - 1]))
  {
    var m := DrawMove(draws[k - 1]);
    var s := EncodeAll(DrawMoves(draws[..k]));
    var s0 := EncodeAll(DrawMoves(draws[..k - 1]));
    ScrambleStep(DefaultCube, draws, k - 1);
    assert s == s0 + [Encode(m)];
    DecodeEncode(m);
    assert s[|s| - 1] == Encode(m) && s[..|s| - 1] == s0;
    UndoApply(Replay(DefaultCube, DrawMoves(draws[..k - 1])), m);
  }

  /** One solver step on the state a scramble of `k` draws left behind, if
      the cube is not yet solved again, takes it back to the state of the
      first `k - 1` draws, and answers whether draws remain. */
  method SolveScrambleStep(solver: Solver, g: Game, draws: seq<Draw>, k: nat) returns (more: bool)
    requires 0 < k <= |draws|
    requires g.moves.stack == EncodeAll(DrawMoves(draws[..k]))
    requires g.cube == Replay(DefaultCube, DrawMoves(draws[..k]))
    requires !IsSolved(g.cube)
    modifies solver, g, g.moves
    ensures g.moves.stack == EncodeAll(DrawMoves(draws[..k - 1]))
    ensures g.cube == Replay(DefaultCube, DrawMoves(draws[..k - 1]))
    ensures more <==> k > 1
  {
    UndoLastDraw(draws, k);
    more := solver.Solve(g);
  }
}
