/** Laws of the move primitives: the slice and rotation index algebra of
    cube.py:608-677 stated face by face, four quarter turns being the
    identity (which is what lets `pop_move` undo), and what solvedness
    survives. */
module CubeLaws {
  import opened Text
  import opened CubeModel

  // ---------------------------------------------------------------------
  // Pointwise reading of the move functions

  lemma TurnOnceAt(c: Cube, rowCol: bool, n: Index, p: Pos)
    requires ValidPos(p)
    ensures At(TurnOnce(c, rowCol, n), p) == At(c, TurnSource(rowCol, n, p))
  {
  }

  lemma RotateZAt(c: Cube, p: Pos)
    requires ValidPos(p)
    ensures At(RotateZ(c), p) == At(c, ZSource(p))
  {
  }

  lemma RowExtensionality(a: Row, b: Row)
    requires a[0] == b[0] && a[1] == b[1] && a[2] == b[2]
    ensures a == b
  {
  }

  // ---------------------------------------------------------------------
  // The effect of one pass, in the faces-and-rows terms of the source

  lemma RowTurnSideRow(c: Cube, n: Index, f: int, i: int)
    requires 0 <= f < 4 && 0 <= i < 3
    ensures TurnOnce(c, true, n)[f][i] == if i == n then c[if f == 0 then 3 else f - 1][i] else c[f][i]
  {
    TurnOnceAt(c, true, n, Pos(f, i, 0));
    TurnOnceAt(c, true, n, Pos(f, i, 1));
    TurnOnceAt(c, true, n, Pos(f, i, 2));
    RowExtensionality(TurnOnce(c, true, n)[f][i], if i == n then c[if f == 0 then 3 else f - 1][i] else c[f][i]);
  }

  lemma UpCell(c: Cube, n: Index, i: int, j: int)
    requires 0 <= i < 3 && 0 <= j < 3
    ensures TurnOnce(c, true, n)[UpFace][i][j] == if n == 0 then c[UpFace][j][2 - i] else c[UpFace][i][j]
  {
    TurnOnceAt(c, true, n, Pos(UpFace, i, j));
  }

  lemma DownCell(c: Cube, n: Index, i: int, j: int)
    requires 0 <= i < 3 && 0 <= j < 3
    ensures TurnOnce(c, true, n)[DownFace][i][j] == if n == 2 then c[DownFace][2 - j][i] else c[DownFace][i][j]
  {
    TurnOnceAt(c, true, n, Pos(DownFace, i, j));
  }

  lemma RowTurnUp(c: Cube, n: Index)
    ensures TurnOnce(c, true, n)[UpFace] == if n == 0 then SpinCcw(c[UpFace]) else c[UpFace]
  {
    forall i, j | 0 <= i < 3 && 0 <= j < 3
      ensures TurnOnce(c, true, n)[UpFace][i][j] == (if n == 0 then SpinCcw(c[UpFace]) else c[UpFace])[i][j]
    {
      UpCell(c, n, i, j);
    }
    FaceExtensionality(TurnOnce(c, true, n)[UpFace], if n == 0 then SpinCcw(c[UpFace]) else c[UpFace]);
  }

  lemma RowTurnDown(c: Cube, n: Index)
    ensures TurnOnce(c, true, n)[DownFace] == if n == 2 then SpinCw(c[DownFace]) else c[DownFace]
  {
    forall i, j | 0 <= i < 3 && 0 <= j < 3
      ensures TurnOnce(c, true, n)[DownFace][i][j] == (if n == 2 then SpinCw(c[DownFace]) else c[DownFace])[i][j]
    {
      DownCell(c, n, i, j);
    }
    FaceExtensionality(TurnOnce(c, true, n)[DownFace], if n == 2 then SpinCw(c[DownFace]) else c[DownFace]);
  }

  /** A row pass at `n` moves row `n` of front to right, right to back,
      back to left and left to front; up spins only for `n == 0`, down only
      for `n == 2`; nothing else moves. */
  lemma RowTurnEffect(c: Cube, n: Index)
    ensures var r := TurnOnce(c, true, n);
      && r[RightFace][n] == c[FrontFace][n]
      && r[BackFace][n] == c[RightFace][n]
      && r[LeftFace][n] == c[BackFace][n]
      && r[FrontFace][n] == c[LeftFace][n]
      && (forall f, i | 0 <= f < 4 && 0 <= i < 3 && i != n :: r[f][i] == c[f][i])
      && r[UpFace] == (if n == 0 then SpinCcw(c[UpFace]) else c[UpFace])
      && r[DownFace] == (if n == 2 then SpinCw(c[DownFace]) else c[DownFace])
  {
    forall f, i | 0 <= f < 4 && 0 <= i < 3
      ensures TurnOnce(c, true, n)[f][i] == if i == n then c[if f == 0 then 3 else f - 1][i] else c[f][i]
    {
      RowTurnSideRow(c, n, f, i);
    }
    RowTurnUp(c, n);
    RowTurnDown(c, n);
  }

  lemma LeftCell(c: Cube, n: Index, i: int, j: int)
    requires 0 <= i < 3 && 0 <= j < 3
    ensures TurnOnce(c, false, n)[LeftFace][i][j] == if n == 0 then c[LeftFace][j][2 - i] else c[LeftFace][i][j]
  {
    TurnOnceAt(c, false, n, Pos(LeftFace, i, j));
  }

  lemma RightCell(c: Cube, n: Index, i: int, j: int)
    requires 0 <= i < 3 && 0 <= j < 3
    ensures TurnOnce(c, false, n)[RightFace][i][j] == if n == 2 then c[RightFace][2 - j][i] else c[RightFace][i][j]
  {
    TurnOnceAt(c, false, n, Pos(RightFace, i, j));
  }

  lemma ColumnTurnLeft(c: Cube, n: Index)
    ensures TurnOnce(c, false, n)[LeftFace] == if n == 0 then SpinCcw(c[LeftFace]) else c[LeftFace]
  {
    forall i, j | 0 <= i < 3 && 0 <= j < 3
      ensures TurnOnce(c, false, n)[LeftFace][i][j] == (if n == 0 then SpinCcw(c[LeftFace]) else c[LeftFace])[i][j]
    {
      LeftCell(c, n, i, j);
    }
    FaceExtensionality(TurnOnce(c, false, n)[LeftFace], if n == 0 then SpinCcw(c[LeftFace]) else c[LeftFace]);
  }

  lemma ColumnTurnRight(c: Cube, n: Index)
    ensures TurnOnce(c, false, n)[RightFace] == if n == 2 then SpinCw(c[RightFace]) else c[RightFace]
  {
    forall i, j | 0 <= i < 3 && 0 <= j < 3
      ensures TurnOnce(c, false, n)[RightFace][i][j] == (if n == 2 then SpinCw(c[RightFace]) else c[RightFace])[i][j]
    {
      RightCell(c, n, i, j);
    }
    FaceExtensionality(TurnOnce(c, false, n)[RightFace], if n == 2 then SpinCw(c[RightFace]) else c[RightFace]);
  }

  /** Column `n` of the four faces the column passes through. */
  lemma ColumnTurnCycle(c: Cube, n: Index, i: int)
    requires 0 <= i < 3
    ensures TurnOnce(c, false, n)[FrontFace][i][n] == c[DownFace][i][n]
    ensures TurnOnce(c, false, n)[DownFace][2 - i][n] == c[BackFace][i][2 - n]
    ensures TurnOnce(c, false, n)[BackFace][2 - i][2 - n] == c[UpFace][i][n]
    ensures TurnOnce(c, false, n)[UpFace][i][n] == c[FrontFace][i][n]
  {
    TurnOnceAt(c, false, n, Pos(FrontFace, i, n));
    TurnOnceAt(c, false, n, Pos(DownFace, 2 - i, n));
    TurnOnceAt(c, false, n, Pos(BackFace, 2 - i, 2 - n));
    TurnOnceAt(c, false, n, Pos(UpFace, i, n));
  }

  /** Cells off the turning column stay where they are. */
  lemma ColumnTurnRest(c: Cube, n: Index, i: int, j: int)
    requires 0 <= i < 3 && 0 <= j < 3
    ensures j != n ==> TurnOnce(c, false, n)[FrontFace][i][j] == c[FrontFace][i][j]
    ensures j != n ==> TurnOnce(c, false, n)[DownFace][i][j] == c[DownFace][i][j]
    ensures j != n ==> TurnOnce(c, false, n)[UpFace][i][j] == c[UpFace][i][j]
    ensures j != 2 - n ==> TurnOnce(c, false, n)[BackFace][i][j] == c[BackFace][i][j]
  {
    TurnOnceAt(c, false, n, Pos(FrontFace, i, j));
    TurnOnceAt(c, false, n, Pos(DownFace, i, j));
    TurnOnceAt(c, false, n, Pos(UpFace, i, j));
    TurnOnceAt(c, false, n, Pos(BackFace, i, j));
  }

  /** A column pass at `n`: for every row offset `i`,
      front[i][n] <- down[i][n], down[2-i][n] <- back[i][2-n],
      back[2-i][2-n] <- up[i][n], up[i][n] <- front[i][n]; left spins only
      for `n == 0` and right only for `n == 2`; nothing else moves. */
  lemma ColumnTurnEffect(c: Cube, n: Index)
    ensures var r := TurnOnce(c, false, n);
      && (forall i | 0 <= i < 3 ::
            && r[FrontFace][i][n] == c[DownFace][i][n]
            && r[DownFace][2 - i][n] == c[BackFace][i][2 - n]
            && r[BackFace][2 - i][2 - n] == c[UpFace][i][n]
            && r[UpFace][i][n] == c[FrontFace][i][n])
      && (forall i, j | 0 <= i < 3 && 0 <= j < 3 && j != n ::
            && r[FrontFace][i][j] == c[FrontFace][i][j]
            && r[DownFace][i][j] == c[DownFace][i][j]
            && r[UpFace][i][j] == c[UpFace][i][j])
      && (forall i, j | 0 <= i < 3 && 0 <= j < 3 && j != 2 - n ::
            r[BackFace][i][j] == c[BackFace][i][j])
      && r[LeftFace] == (if n == 0 then SpinCcw(c[LeftFace]) else c[LeftFace])
      && r[RightFace] == (if n == 2 then SpinCw(c[RightFace]) else c[RightFace])
  {
    forall i | 0 <= i < 3
      ensures TurnOnce(c, false, n)[FrontFace][i][n] == c[DownFace][i][n]
      ensures TurnOnce(c, false, n)[DownFace][2 - i][n] == c[BackFace][i][2 - n]
      ensures TurnOnce(c, false, n)[BackFace][2 - i][2 - n] == c[UpFace][i][n]
      ensures TurnOnce(c, false, n)[UpFace][i][n] == c[FrontFace][i][n]
    {
      ColumnTurnCycle(c, n, i);
    }
    forall i, j | 0 <= i < 3 && 0 <= j < 3
      ensures j != n ==> TurnOnce(c, false, n)[FrontFace][i][j] == c[FrontFace][i][j]
      ensures j != n ==> TurnOnce(c, false, n)[DownFace][i][j] == c[DownFace][i][j]
      ensures j != n ==> TurnOnce(c, false, n)[UpFace][i][j] == c[UpFace][i][j]
      ensures j != 2 - n ==> TurnOnce(c, false, n)[BackFace][i][j] == c[BackFace][i][j]
    {
      ColumnTurnRest(c, n, i, j);
    }
    ColumnTurnLeft(c, n);
    ColumnTurnRight(c, n);
  }

  lemma RotateZFront(c: Cube)
    ensures RotateZ(c)[FrontFace] == SpinCw(c[FrontFace])
  {
    forall i, j | 0 <= i < 3 && 0 <= j < 3
      ensures RotateZ(c)[FrontFace][i][j] == SpinCw(c[FrontFace])[i][j]
    {
      RotateZAt(c, Pos(FrontFace, i, j));
    }
    FaceExtensionality(RotateZ(c)[FrontFace], SpinCw(c[FrontFace]));
  }

  lemma RotateZBack(c: Cube)
    ensures RotateZ(c)[BackFace] == SpinCcw(c[BackFace])
  {
    forall i, j | 0 <= i < 3 && 0 <= j < 3
      ensures RotateZ(c)[BackFace][i][j] == SpinCcw(c[BackFace])[i][j]
    {
      RotateZAt(c, Pos(BackFace, i, j));
    }
    FaceExtensionality(RotateZ(c)[BackFace], SpinCcw(c[BackFace]));
  }

  /** `rotate("z")`: front spins clockwise, back counter-clockwise, and
      left[j][2-i] <- down[i][j], up[j][2-i] <- left[i][j],
      right[j][2-i] <- up[i][j], down[j][2-i] <- right[i][j]. */
  lemma RotateZEffect(c: Cube)
    ensures var r := Rotated(c, AxisZ);
      && r[FrontFace] == SpinCw(c[FrontFace])
      && r[BackFace] == SpinCcw(c[BackFace])
      && (forall i, j | 0 <= i < 3 && 0 <= j < 3 ::
            && r[LeftFace][j][2 - i] == c[DownFace][i][j]
            && r[UpFace][j][2 - i] == c[LeftFace][i][j]
            && r[RightFace][j][2 - i] == c[UpFace][i][j]
            && r[DownFace][j][2 - i] == c[RightFace][i][j])
  {
    AxesDistinct();
    assert Rotated(c, AxisZ) == RotateZ(c);
    forall i, j | 0 <= i < 3 && 0 <= j < 3
      ensures RotateZ(c)[LeftFace][j][2 - i] == c[DownFace][i][j]
      ensures RotateZ(c)[UpFace][j][2 - i] == c[LeftFace][i][j]
      ensures RotateZ(c)[RightFace][j][2 - i] == c[UpFace][i][j]
      ensures RotateZ(c)[DownFace][j][2 - i] == c[RightFace][i][j]
    {
      RotateZAt(c, Pos(LeftFace, j, 2 - i));
      RotateZAt(c, Pos(UpFace, j, 2 - i));
      RotateZAt(c, Pos(RightFace, j, 2 - i));
      RotateZAt(c, Pos(DownFace, j, 2 - i));
    }
    RotateZFront(c);
    RotateZBack(c);
  }

  /** An axis other than x, y and z changes no face. */
  lemma RotateOtherAxisIsIdentity(c: Cube, axis: Text)
    requires axis != AxisX && axis != AxisY && axis != AxisZ
    ensures Rotated(c, axis) == c
  {
  }

  // ---------------------------------------------------------------------
  // Four quarter turns are the identity

  lemma RowSourceFourfold(n: Index, p: Pos)
    requires ValidPos(p)
    ensures TurnSource(true, n, TurnSource(true, n, TurnSource(true, n, TurnSource(true, n, p)))) == p
  {
  }

  lemma ColumnSourceFourfold(n: Index, p: Pos)
    requires ValidPos(p)
    ensures TurnSource(false, n, TurnSource(false, n, TurnSource(false, n, TurnSource(false, n, p)))) == p
  {
    if n == 0 {
    } else if n == 1 {
    } else {
    }
  }

  lemma TurnSourceFourfold(rowCol: bool, n: Index, p: Pos)
    requires ValidPos(p)
    ensures TurnSource(rowCol, n, TurnSource(rowCol, n, TurnSource(rowCol, n, TurnSource(rowCol, n, p)))) == p
  {
    if rowCol {
      RowSourceFourfold(n, p);
    } else {
      ColumnSourceFourfold(n, p);
    }
  }

  /** Four forward passes of one slice restore every cube. */
  lemma TurnFourIsIdentity(c: Cube, rowCol: bool, n: Index)
    ensures TurnOnce(TurnOnce(TurnOnce(TurnOnce(c, rowCol, n), rowCol, n), rowCol, n), rowCol, n) == c
  {
    var c1 := TurnOnce(c, rowCol, n);
    var c2 := TurnOnce(c1, rowCol, n);
    var c3 := TurnOnce(c2, rowCol, n);
    var c4 := TurnOnce(c3, rowCol, n);
    forall p | ValidPos(p)
      ensures At(c4, p) == At(c, p)
    {
      var p1 := TurnSource(rowCol, n, p);
      var p2 := TurnSource(rowCol, n, p1);
      var p3 := TurnSource(rowCol, n, p2);
      TurnOnceAt(c3, rowCol, n, p);
      TurnOnceAt(c2, rowCol, n, p1);
      TurnOnceAt(c1, rowCol, n, p2);
      TurnOnceAt(c, rowCol, n, p3);
      TurnSourceFourfold(rowCol, n, p);
    }
    CubeExtensionality(c4, c);
  }

  /** `turn(d, n, b)` followed by `turn(d, n, not b)` restores the cube, in
      either order: the undo step of `pop_move` (cube.py:779-782). */
  lemma TurnThenReverse(c: Cube, rowCol: bool, n: Index, backwards: bool)
    ensures Turned(Turned(c, rowCol, n, backwards), rowCol, n, !backwards) == c
  {
    TurnFourIsIdentity(c, rowCol, n);
  }

  // ---------------------------------------------------------------------
  // Stickers are only moved: each one lands on exactly one new position

  /** Where the sticker at `p` goes in one forward pass: the source of
      three further passes, since four passes are the identity. */
  function TurnTarget(rowCol: bool, n: Index, p: Pos): (q: Pos)
    requires ValidPos(p)
    ensures ValidPos(q)
  {
    TurnSource(rowCol, n, TurnSource(rowCol, n, TurnSource(rowCol, n, p)))
  }

  /** One pass moves the sticker at `p` to `TurnTarget(p)` and to no other
      position, so no sticker is lost, duplicated or recoloured. */
  lemma TurnMovesEachSticker(c: Cube, rowCol: bool, n: Index, p: Pos)
    requires ValidPos(p)
    ensures TurnSource(rowCol, n, TurnTarget(rowCol, n, p)) == p
    ensures At(TurnOnce(c, rowCol, n), TurnTarget(rowCol, n, p)) == At(c, p)
    ensures forall q | ValidPos(q) && TurnSource(rowCol, n, q) == p :: q == TurnTarget(rowCol, n, p)
  {
    TurnSourceFourfold(rowCol, n, p);
    TurnOnceAt(c, rowCol, n, TurnTarget(rowCol, n, p));
    forall q | ValidPos(q) && TurnSource(rowCol, n, q) == p
      ensures q == TurnTarget(rowCol, n, p)
    {
      TurnSourceFourfold(rowCol, n, q);
    }
  }

  /** Where a sticker comes from after `rotate("x")`: every row of the side
      faces moves one face round, up spins counter-clockwise and down
      clockwise. */
  function XSource(p: Pos): (q: Pos)
    requires ValidPos(p)
    ensures ValidPos(q)
  {
    var f, i, j := p.face, p.row, p.col;
    if f < 4 then Pos(if f == 0 then 3 else f - 1, i, j)
    else if f == UpFace then Pos(UpFace, j, 2 - i)
    else Pos(DownFace, 2 - j, i)
  }

  /** Where a sticker comes from after `rotate("y")`: front <- down,
      down <- back and back <- up with both indices flipped, up <- front,
      left spins counter-clockwise and right clockwise. */
  function YSource(p: Pos): (q: Pos)
    requires ValidPos(p)
    ensures ValidPos(q)
  {
    var f, i, j := p.face, p.row, p.col;
    if f == FrontFace then Pos(DownFace, i, j)
    else if f == DownFace then Pos(BackFace, 2 - i, 2 - j)
    else if f == BackFace then Pos(UpFace, 2 - i, 2 - j)
    else if f == UpFace then Pos(FrontFace, i, j)
    else if f == LeftFace then Pos(LeftFace, j, 2 - i)
    else Pos(RightFace, 2 - j, i)
  }

  lemma XSourceIsThreeRowTurns(p: Pos)
    requires ValidPos(p)
    ensures TurnSource(true, 0, TurnSource(true, 1, TurnSource(true, 2, p))) == XSource(p)
  {
  }

  lemma YSourceIsThreeColumnTurns(p: Pos)
    requires ValidPos(p)
    ensures TurnSource(false, 0, TurnSource(false, 1, TurnSource(false, 2, p))) == YSource(p)
  {
  }

  function RotationSource(axis: Text, p: Pos): (q: Pos)
    requires ValidPos(p)
    ensures ValidPos(q)
  {
    if axis == AxisX then XSource(p)
    else if axis == AxisY then YSource(p)
    else if axis == AxisZ then ZSource(p)
    else p
  }

  /** Rotating moves every sticker by the whole-cube map of its axis. */
  lemma RotatedAt(c: Cube, axis: Text, p: Pos)
    requires ValidPos(p)
    ensures At(Rotated(c, axis), p) == At(c, RotationSource(axis, p))
  {
    AxesDistinct();
    if axis == AxisX || axis == AxisY {
      var rc := axis == AxisX;
      var c1 := TurnOnce(c, rc, 0);
      var c2 := TurnOnce(c1, rc, 1);
      var p1 := TurnSource(rc, 2, p);
      var p2 := TurnSource(rc, 1, p1);
      TurnOnceAt(c2, rc, 2, p);
      TurnOnceAt(c1, rc, 1, p1);
      TurnOnceAt(c, rc, 0, p2);
      if rc {
        XSourceIsThreeRowTurns(p);
      } else {
        YSourceIsThreeColumnTurns(p);
      }
    } else if axis == AxisZ {
      RotateZAt(c, p);
    }
  }

  lemma RotationSourceFourfold(axis: Text, p: Pos)
    requires ValidPos(p)
    ensures RotationSource(axis, RotationSource(axis, RotationSource(axis, RotationSource(axis, p)))) == p
  {
    if axis == AxisX {
      XSourceFourfold(p);
    } else if axis == AxisY {
      YSourceFourfold(p);
    } else if axis == AxisZ {
      ZSourceFourfold(p);
    }
  }

  lemma XSourceFourfold(p: Pos)
    requires ValidPos(p)
    ensures XSource(XSource(XSource(XSource(p)))) == p
  {
  }

  lemma YSourceFourfold(p: Pos)
    requires ValidPos(p)
    ensures YSource(YSource(YSource(YSource(p)))) == p
  {
  }

  lemma ZSourceFourfold(p: Pos)
    requires ValidPos(p)
    ensures ZSource(ZSource(ZSource(ZSource(p)))) == p
  {
  }

  /** Every sticker after a turn comes from one pass's source, or, when
      `backwards`, from three passes' source. */
  lemma TurnedAt(c: Cube, rowCol: bool, n: Index, backwards: bool, p: Pos)
    requires ValidPos(p)
    ensures At(Turned(c, rowCol, n, backwards), p)
         == At(c, if backwards then TurnTarget(rowCol, n, p) else TurnSource(rowCol, n, p))
  {
    if backwards {
      var c1 := TurnOnce(c, rowCol, n);
      var c2 := TurnOnce(c1, rowCol, n);
      var p1 := TurnSource(rowCol, n, p);
      var p2 := TurnSource(rowCol, n, p1);
      TurnOnceAt(c2, rowCol, n, p);
      TurnOnceAt(c1, rowCol, n, p1);
      TurnOnceAt(c, rowCol, n, p2);
    } else {
      TurnOnceAt(c, rowCol, n, p);
    }
  }

  /** Where the sticker at `p` goes in one rotation. */
  function RotationTarget(axis: Text, p: Pos): (q: Pos)
    requires ValidPos(p)
    ensures ValidPos(q)
  {
    RotationSource(axis, RotationSource(axis, RotationSource(axis, p)))
  }

  /** A rotation moves the sticker at `p` to `RotationTarget(p)` and to no
      other position. */
  lemma RotationMovesEachSticker(c: Cube, axis: Text, p: Pos)
    requires ValidPos(p)
    ensures RotationSource(axis, RotationTarget(axis, p)) == p
    ensures At(Rotated(c, axis), RotationTarget(axis, p)) == At(c, p)
    ensures forall q | ValidPos(q) && RotationSource(axis, q) == p :: q == RotationTarget(axis, p)
  {
    RotationSourceFourfold(axis, p);
    RotatedAt(c, axis, RotationTarget(axis, p));
    forall q | ValidPos(q) && RotationSource(axis, q) == p
      ensures q == RotationTarget(axis, p)
    {
      RotationSourceFourfold(axis, q);
    }
  }

  /** Four rotations about the same axis restore every cube, so three
      further rotations undo one (cube.py:773-778). */
  lemma RotateFourIsIdentity(c: Cube, axis: Text)
    ensures Rotated(Rotated(Rotated(Rotated(c, axis), axis), axis), axis) == c
  {
    var c1 := Rotated(c, axis);
    var c2 := Rotated(c1, axis);
    var c3 := Rotated(c2, axis);
    var c4 := Rotated(c3, axis);
    forall p | ValidPos(p)
      ensures At(c4, p) == At(c, p)
    {
      var p1 := RotationSource(axis, p);
      var p2 := RotationSource(axis, p1);
      var p3 := RotationSource(axis, p2);
      RotatedAt(c3, axis, p);
      RotatedAt(c2, axis, p1);
      RotatedAt(c1, axis, p2);
      RotatedAt(c, axis, p3);
      RotationSourceFourfold(axis, p);
    }
    CubeExtensionality(c4, c);
  }

  // ---------------------------------------------------------------------
  // Solvedness

  /** The colour every sticker of face `f` has in the default layout. */
  function DefaultColour(f: int): Colour
  {
    if f == LeftFace then Orange
    else if f == FrontFace then Green
    else if f == RightFace then Red
    else if f == BackFace then Blue
    else if f == UpFace then White
    else Yellow
  }

  /** `default_cube` is six uniform faces in the order orange, green, red,
      blue, white, yellow. */
  lemma DefaultCubeLayout(p: Pos)
    requires ValidPos(p)
    ensures At(DefaultCube, p) == DefaultColour(p.face)
  {
  }

  /** The default layout passes `check_solved`. */
  lemma DefaultCubeIsSolved()
    ensures IsSolved(DefaultCube)
  {
    forall f, i, j | 0 <= f < 6 && 0 <= i < 3 && 0 <= j < 3
      ensures DefaultCube[f][i][j] == DefaultCube[f][1][1]
    {
      DefaultCubeLayout(Pos(f, i, j));
      DefaultCubeLayout(Pos(f, 1, 1));
    }
  }

  /** From the default layout, a single turn of any slice, forward or
      backwards, leaves the cube unsolved. */
  lemma OneTurnUnsolvesDefault(rowCol: bool, n: Index, backwards: bool)
    ensures !IsSolved(Turned(DefaultCube, rowCol, n, backwards))
  {
    var r := Turned(DefaultCube, rowCol, n, backwards);
    var m: Index := if n == 2 then 0 else n + 1;
    var p := if rowCol then Pos(RightFace, n, 0) else Pos(FrontFace, 0, n);
    var q := if rowCol then Pos(RightFace, m, 0) else Pos(FrontFace, 0, m);
    TurnedAt(DefaultCube, rowCol, n, backwards, p);
    TurnedAt(DefaultCube, rowCol, n, backwards, q);
    var sp := if backwards then TurnTarget(rowCol, n, p) else TurnSource(rowCol, n, p);
    var sq := if backwards then TurnTarget(rowCol, n, q) else TurnSource(rowCol, n, q);
    DefaultCubeLayout(sp);
    DefaultCubeLayout(sq);
    assert At(r, p) != At(r, q);
  }

  /** A rotation only reorients the cube: it keeps a solved cube solved. */
  lemma RotatePreservesSolved(c: Cube, axis: Text)
    requires IsSolved(c)
    ensures IsSolved(Rotated(c, axis))
  {
    var r := Rotated(c, axis);
    forall f, i, j | 0 <= f < 6 && 0 <= i < 3 && 0 <= j < 3
      ensures r[f][i][j] == r[f][1][1]
    {
      RotatedAt(c, axis, Pos(f, i, j));
      RotatedAt(c, axis, Pos(f, 1, 1));
      var q := RotationSource(axis, Pos(f, i, j));
      var q1 := RotationSource(axis, Pos(f, 1, 1));
      assert q.face == q1.face && q1.row == 1 && q1.col == 1;
    }
  }
}
