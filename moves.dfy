/** Move records as the engine stores them (cube.py:588, cube.py:657,
    game_data.py:93-116): small dictionaries from key names to values, read
    back by `pop_move` (cube.py:772-782).  `Move` is their typed meaning,
    `Apply` and `Undo` what a move and its inverse do to the cube. */
module Moves {
  import opened Wrappers
  import opened Text
  import opened CubeModel
  import opened CubeLaws
  import opened Values

  type MoveDict = map<Text, Value>

  const KeyDirection: Text := FromString("direction")
  const KeyNumber: Text := FromString("number")
  const KeyBackwards: Text := FromString("backwards")
  const KeyRotation: Text := FromString("rotation")

  /** The four key names are pairwise different. */
  lemma KeysDistinct()
    ensures KeyDirection != KeyNumber && KeyDirection != KeyBackwards && KeyDirection != KeyRotation
    ensures KeyNumber != KeyBackwards && KeyNumber != KeyRotation && KeyBackwards != KeyRotation
  {
    assert KeyDirection[0] != KeyNumber[0] && KeyDirection[0] != KeyBackwards[0];
    assert KeyDirection[0] != KeyRotation[0] && KeyNumber[0] != KeyBackwards[0];
    assert KeyNumber[0] != KeyRotation[0] && KeyBackwards[0] != KeyRotation[0];
  }

  /** The key set of a turn record. */
  predicate IsTurnKeys(d: MoveDict)
  {
    d.Keys == {KeyDirection, KeyNumber, KeyBackwards}
  }

  /** The key set of a rotation record. */
  predicate IsRotationKeys(d: MoveDict)
  {
    d.Keys == {KeyRotation, KeyDirection}
  }

  /** What `MoveStack.push` accepts (game_data.py:110-113). */
  predicate ValidKeys(d: MoveDict)
  {
    IsTurnKeys(d) || IsRotationKeys(d)
  }

  /** A turn of row (`rowCol`) or column `number`, or a whole-cube rotation. */
  datatype Move = Turn(rowCol: bool, number: Index, backwards: bool) | Rotation(axis: Text)

  /** The record `turn` and `rotate` append for a move. */
  function Encode(m: Move): (d: MoveDict)
    ensures ValidKeys(d)
    ensures m.Turn? <==> IsTurnKeys(d)
  {
    KeysDistinct();
    match m
    case Turn(rc, n, b) => map[KeyDirection := Bool(rc), KeyNumber := Int(n), KeyBackwards := Bool(b)]
    case Rotation(axis) => map[KeyRotation := Bool(true), KeyDirection := Str(axis)]
  }

  /** How `pop_move` reads a record: a "rotation" key makes it a rotation
      about the axis under "direction"; otherwise it is a turn built from
      "direction", "number" and "backwards".  `None` is a record that
      `pop_move` could not replay (a missing key or a value of the wrong
      kind). */
  function Decode(d: MoveDict): (r: Option<Move>)
    ensures r.Some? && r.value.Rotation? ==> KeyRotation in d
    ensures r.Some? && r.value.Turn? ==> KeyRotation !in d
  {
    if KeyRotation in d then
      if KeyDirection in d && d[KeyDirection].Str? then Some(Rotation(d[KeyDirection].s)) else None
    else if KeyDirection in d && KeyNumber in d && KeyBackwards in d
         && d[KeyDirection].Bool? && d[KeyNumber].Int? && 0 <= d[KeyNumber].i < 3
         && d[KeyBackwards].Bool?
    then Some(Turn(d[KeyDirection].b, d[KeyNumber].i, d[KeyBackwards].b))
    else None
  }

  /** Every record the engine writes reads back as the move it records. */
  lemma DecodeEncode(m: Move)
    ensures Decode(Encode(m)) == Some(m)
  {
    KeysDistinct();
  }

  /** A record in the engine's own form (the keys `push` accepts, and
      `True` under "rotation").  */
  predicate Canonical(d: MoveDict)
  {
    ValidKeys(d) && (IsRotationKeys(d) ==> d[KeyRotation] == Bool(true))
  }

  /** A canonical record that reads back as a move is exactly the record
      of that move. */
  lemma EncodeDecode(d: MoveDict)
    requires Canonical(d) && Decode(d).Some?
    ensures Encode(Decode(d).value) == d
  {
    KeysDistinct();
    var e := Encode(Decode(d).value);
    assert e.Keys == d.Keys;
    forall k | k in d
      ensures e[k] == d[k]
    {
    }
  }

  /** A sequence of records every one of which `pop_move` can replay. */
  predicate AllDecode(ds: seq<MoveDict>)
  {
    forall k | 0 <= k < |ds| :: Decode(ds[k]).Some?
  }

  function EncodeAll(ms: seq<Move>): (ds: seq<MoveDict>)
    ensures |ds| == |ms|
  {
    if ms == [] then [] else EncodeAll(ms[..|ms| - 1]) + [Encode(ms[|ms| - 1])]
  }

  /** The records are those of the moves, one per move, in order. */
  lemma {:induction false} EncodeAllAt(ms: seq<Move>, k: nat)
    requires k < |ms|
    ensures EncodeAll(ms)[k] == Encode(ms[k])
  {
    if k < |ms| - 1 {
      EncodeAllAt(ms[..|ms| - 1], k);
    }
  }

  // ---------------------------------------------------------------------
  // Doing and undoing moves

  /** `turn(d, n, b)` or `rotate(axis)` on cube `c`. */
  function Apply(c: Cube, m: Move): Cube
  {
    match m
    case Turn(rc, n, b) => Turned(c, rc, n, b)
    case Rotation(axis) => Rotated(c, axis)
  }

  /** What `pop_move` does for a record: the same turn with `backwards`
      flipped, or three further rotations (cube.py:773-782). */
  function Undo(c: Cube, m: Move): Cube
  {
    match m
    case Turn(rc, n, b) => Turned(c, rc, n, !b)
    case Rotation(axis) => Rotated(Rotated(Rotated(c, axis), axis), axis)
  }

  /** Undoing a move restores the cube it was made on. */
  lemma UndoApply(c: Cube, m: Move)
    ensures Undo(Apply(c, m), m) == c
  {
    match m
    case Turn(rc, n, b) => TurnThenReverse(c, rc, n, b);
    case Rotation(axis) => RotateFourIsIdentity(c, axis);
  }

  /** Doing a move undoes its undo: the two are inverse both ways round. */
  lemma ApplyUndo(c: Cube, m: Move)
    ensures Apply(Undo(c, m), m) == c
  {
    match m
    case Turn(rc, n, b) => TurnThenReverse(c, rc, n, !b);
    case Rotation(axis) => RotateFourIsIdentity(c, axis);
  }

  /** The cube reached from `c` by making the moves `ms` in order. */
  function Replay(c: Cube, ms: seq<Move>): Cube
    decreases |ms|
  {
    if ms == [] then c else Apply(Replay(c, ms[..|ms| - 1]), ms[|ms| - 1])
  }

  /** The cube reached from `c` by undoing the moves `ms`, last first, as
      repeated `pop_move` calls do. */
  function UndoAll(c: Cube, ms: seq<Move>): Cube
    decreases |ms|
  {
    if ms == [] then c else UndoAll(Undo(c, ms[|ms| - 1]), ms[..|ms| - 1])
  }

  /** Solving by undo is sound: undoing every recorded move, last first,
      gives back the cube the moves were made on. */
  lemma {:induction false} UndoAllReplay(c: Cube, ms: seq<Move>)
    ensures UndoAll(Replay(c, ms), ms) == c
    decreases |ms|
  {
    if ms != [] {
      var init := ms[..|ms| - 1];
      UndoApply(Replay(c, init), ms[|ms| - 1]);
      UndoAllReplay(c, init);
    }
  }

  /** One undo step from the recorded history leaves the history one move
      shorter. */
  lemma UndoLast(c: Cube, ms: seq<Move>)
    requires ms != []
    ensures Undo(Replay(c, ms), ms[|ms| - 1]) == Replay(c, ms[..|ms| - 1])
  {
    UndoApply(Replay(c, ms[..|ms| - 1]), ms[|ms| - 1]);
  }

  // ---------------------------------------------------------------------
  // Stickers are only moved: every reachable cube rearranges the stickers
  // of the cube it started from

  /** Where the sticker at `p` comes from after the move `m`. */
  function MoveSource(m: Move, p: Pos): (q: Pos)
    requires ValidPos(p)
    ensures ValidPos(q)
  {
    match m
    case Turn(rc, n, b) => if b then TurnTarget(rc, n, p) else TurnSource(rc, n, p)
    case Rotation(axis) => RotationSource(axis, p)
  }

  /** Where the sticker at `p` goes in the move `m`. */
  function MoveTarget(m: Move, p: Pos): (q: Pos)
    requires ValidPos(p)
    ensures ValidPos(q)
  {
    match m
    case Turn(rc, n, b) => if b then TurnSource(rc, n, p) else TurnTarget(rc, n, p)
    case Rotation(axis) => RotationTarget(axis, p)
  }

  /** Every sticker after a move comes from `MoveSource`. */
  lemma ApplyAt(c: Cube, m: Move, p: Pos)
    requires ValidPos(p)
    ensures At(Apply(c, m), p) == At(c, MoveSource(m, p))
  {
    match m
    case Turn(rc, n, b) => TurnedAt(c, rc, n, b, p);
    case Rotation(axis) => RotatedAt(c, axis, p);
  }

  /** `MoveSource` and `MoveTarget` are inverse bijections of the 54
      sticker positions. */
  lemma MoveSourceTarget(m: Move, p: Pos)
    requires ValidPos(p)
    ensures MoveSource(m, MoveTarget(m, p)) == p
    ensures MoveTarget(m, MoveSource(m, p)) == p
  {
    match m
    case Turn(rc, n, b) => TurnSourceFourfold(rc, n, p);
    case Rotation(axis) => RotationSourceFourfold(axis, p);
  }

  /** Where the sticker at `p` comes from after the moves `ms`. */
  function ReplaySource(ms: seq<Move>, p: Pos): (q: Pos)
    requires ValidPos(p)
    ensures ValidPos(q)
    decreases |ms|
  {
    if ms == [] then p else ReplaySource(ms[..|ms| - 1], MoveSource(ms[|ms| - 1], p))
  }

  /** Where the sticker at `p` goes in the moves `ms`. */
  function ReplayTarget(ms: seq<Move>, p: Pos): (q: Pos)
    requires ValidPos(p)
    ensures ValidPos(q)
    decreases |ms|
  {
    if ms == [] then p else MoveTarget(ms[|ms| - 1], ReplayTarget(ms[..|ms| - 1], p))
  }

  /** Every sticker after the moves comes from `ReplaySource`. */
  lemma {:induction false} ReplayAt(c: Cube, ms: seq<Move>, p: Pos)
    requires ValidPos(p)
    ensures At(Replay(c, ms), p) == At(c, ReplaySource(ms, p))
    decreases |ms|
  {
    if ms != [] {
      var init, m := ms[..|ms| - 1], ms[|ms| - 1];
      ApplyAt(Replay(c, init), m, p);
      ReplayAt(c, init, MoveSource(m, p));
    }
  }

  /** `ReplaySource` and `ReplayTarget` are inverse bijections. */
  lemma {:induction false} ReplaySourceTarget(ms: seq<Move>, p: Pos)
    requires ValidPos(p)
    ensures ReplaySource(ms, ReplayTarget(ms, p)) == p
    ensures ReplayTarget(ms, ReplaySource(ms, p)) == p
    decreases |ms|
  {
    if ms != [] {
      var init, m := ms[..|ms| - 1], ms[|ms| - 1];
      MoveSourceTarget(m, ReplayTarget(init, p));
      ReplaySourceTarget(init, p);
      MoveSourceTarget(m, p);
      ReplaySourceTarget(init, MoveSource(m, p));
    }
  }

  /** Sticker conservation: after any moves, the sticker that was at `p`
      is at `ReplayTarget(ms, p)` and at no other position.  So every cube
      reached by moves is a rearrangement of the stickers it started
      with. */
  lemma ReplayMovesEachSticker(c: Cube, ms: seq<Move>, p: Pos)
    requires ValidPos(p)
    ensures At(Replay(c, ms), ReplayTarget(ms, p)) == At(c, p)
    ensures forall q | ValidPos(q) && ReplaySource(ms, q) == p :: q == ReplayTarget(ms, p)
  {
    ReplaySourceTarget(ms, p);
    ReplayAt(c, ms, ReplayTarget(ms, p));
    forall q | ValidPos(q) && ReplaySource(ms, q) == p
      ensures q == ReplayTarget(ms, p)
    {
      ReplaySourceTarget(ms, q);
    }
  }
}
