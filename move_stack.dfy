/** `MoveStack` (game_data.py:87-152): the validating LIFO of move records
    made by the user and the scrambler. */
module MoveStacks {
  import opened Wrappers
  import opened Moves

  class MoveStack {
    /** The records, oldest first; the top of the stack is the last. */
    var stack: seq<MoveDict>

    constructor()
      ensures stack == []
    {
      stack := [];
    }

    /** `push`: a record whose key set is that of a turn or of a rotation
        goes on top; any other is refused (`ok == false` stands for the
        `ValueError`) and the stack stays as it was. */
    method Push(move: MoveDict) returns (ok: bool)
      modifies this
      ensures ok <==> ValidKeys(move)
      ensures stack == if ok then old(stack) + [move] else old(stack)
    {
      if IsTurnKeys(move) || IsRotationKeys(move) {
        stack := stack + [move];
        ok := true;
      } else {
        ok := false;
      }
    }

    /** `pop`: the most recently pushed record, which leaves the stack;
        `None` stands for the `IndexError` of popping an empty list. */
    method Pop() returns (move: Option<MoveDict>)
      modifies this
      ensures old(stack) == [] ==> move == None && stack == []
      ensures old(stack) != [] ==>
        move == Some(old(stack)[|old(stack)| - 1]) && stack == old(stack)[..|old(stack)| - 1]
    {
      if stack == [] {
        move := None;
      } else {
        move := Some(stack[|stack| - 1]);
        stack := stack[..|stack| - 1];
      }
    }

    /** `clear` */
    method Clear()
      modifies this
      ensures stack == []
    {
      stack := [];
    }

    /** `size`: the number of stored records. */
    method Size() returns (n: nat)
      ensures n == |stack|
    {
      n := |stack|;
    }

    /** `get_stack` */
    method GetStack() returns (s: seq<MoveDict>)
      ensures s == stack
    {
      s := stack;
    }

    /** `set_stack`: replaces the records wholesale, unchecked. */
    method SetStack(s: seq<MoveDict>)
      modifies this
      ensures stack == s
    {
      stack := s;
    }
  }

  /** A push followed by a pop gives back the pushed record and the stack
      as it was before: the stack is last-in, first-out. */
  method PushThenPop(st: MoveStack, move: MoveDict) returns (popped: Option<MoveDict>)
    requires ValidKeys(move)
    modifies st
    ensures popped == Some(move)
    ensures st.stack == old(st.stack)
  {
    var ok := st.Push(move);
    popped := st.Pop();
  }
}
