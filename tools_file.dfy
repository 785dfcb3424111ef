/** `tools.File` (tools.py:25-225): an in-memory list of objects kept in
    order of their identifier, found by a recursive binary search. */
module Tools {
  import opened Wrappers
  import opened Text
  import opened Values
  import opened Sorting

  /** A stored object: the value of its first attribute, which is its
      identifier, and the values of the others in order. */
  datatype Obj = Obj(first: Value, others: seq<Value>)

  /** `ObjectNotFound(identifier, file)` (tools.py:12-22). */
  datatype ObjectNotFound = ObjectNotFound(identifier: Value, file: Text)

  /** `get_identifier` (tools.py:64-80): the string form of the first
      attribute. */
  function Identifier(o: Obj): Text
  {
    PyStr(o.first)
  }

  /** The order `sort` puts objects in: by identifier, as strings. */
  function ById(): (Obj, Obj) -> bool
  {
    (a: Obj, b: Obj) => LexLe(Identifier(a), Identifier(b))
  }

  lemma ByIdIsPreorder()
    ensures TotalPreorder(ById())
  {
    forall a: Obj, b: Obj
      ensures ById()(a, b) || ById()(b, a)
    {
      LexLeTotal(Identifier(a), Identifier(b));
    }
    forall a: Obj, b: Obj, c: Obj | ById()(a, b) && ById()(b, c)
      ensures ById()(a, c)
    {
      LexLeTransitive(Identifier(a), Identifier(b), Identifier(c));
    }
  }

  /** `sort` (tools.py:103-109): the objects in order of identifier. */
  function SortById(s: seq<Obj>): (r: seq<Obj>)
    ensures Sorted(r, ById())
    ensures multiset(r) == multiset(s)
  {
    ByIdIsPreorder();
    InsertionSortSorted(s, ById());
    InsertionSort(s, ById())
  }

  /** Some object of `s` has identifier `target`. */
  predicate Contains(s: seq<Obj>, target: Text)
  {
    exists k | 0 <= k < |s| :: Identifier(s[k]) == target
  }

  /** `binary_search(lst, start_pos)` (tools.py:121-144): -1 for an empty
      section; otherwise the middle object's position when its identifier
      is the target, else the search goes on in the half before the middle
      when the middle identifier is greater, and in the half after it
      otherwise. */
  function BinarySearch(lst: seq<Obj>, target: Text, start: int): int
    decreases |lst|
  {
    if |lst| == 0 then -1
    else
      var mid := |lst| / 2;
      var identifier := Identifier(lst[mid]);
      if identifier == target then mid + start
      else if LexLt(target, identifier) then BinarySearch(lst[..mid], target, start)
      else BinarySearch(lst[mid + 1..], target, start + mid + 1)
  }

  /** A position the search gives lies in the section and holds the
      target identifier. */
  lemma {:induction false} BinarySearchSound(lst: seq<Obj>, target: Text, start: int)
    ensures var r := BinarySearch(lst, target, start);
      r == -1 || (start <= r < start + |lst| && Identifier(lst[r - start]) == target)
    decreases |lst|
  {
    if |lst| > 0 {
      var mid := |lst| / 2;
      var identifier := Identifier(lst[mid]);
      if identifier != target {
        if LexLt(target, identifier) {
          var left := lst[..mid];
          BinarySearchSound(left, target, start);
          SearchGoesLeft(lst, target, start);
          var r := BinarySearch(left, target, start);
          if r != -1 {
            assert left[r - start] == lst[r - start];
          }
        } else {
          var right := lst[mid + 1..];
          BinarySearchSound(right, target, start + mid + 1);
          SearchGoesRight(lst, target, start);
          var r := BinarySearch(right, target, start + mid + 1);
          if r != -1 {
            assert right[r - (start + mid + 1)] == lst[r - start];
          }
        }
      }
    }
  }

  /** In a section sorted by identifier, an object whose identifier is
      below the middle one's lies before the middle. */
  lemma BeforeMiddle(lst: seq<Obj>, k: int, mid: int)
    requires Sorted(lst, ById())
    requires 0 <= k < |lst| && 0 <= mid < |lst|
    requires LexLt(Identifier(lst[k]), Identifier(lst[mid]))
    ensures k < mid
  {
    if mid < k {
      assert ById()(lst[mid], lst[k]);
      LexLeAntisymmetric(Identifier(lst[k]), Identifier(lst[mid]));
    }
  }

  /** ... and one whose identifier is above the middle one's lies after it. */
  lemma AfterMiddle(lst: seq<Obj>, k: int, mid: int)
    requires Sorted(lst, ById())
    requires 0 <= k < |lst| && 0 <= mid < |lst|
    requires LexLt(Identifier(lst[mid]), Identifier(lst[k]))
    ensures mid < k
  {
    if k < mid {
      assert ById()(lst[k], lst[mid]);
      LexLeAntisymmetric(Identifier(lst[k]), Identifier(lst[mid]));
    }
  }

  /** On a section sorted by identifier, the search misses only when no
      object has the target identifier. */
  lemma {:induction false} BinarySearchFinds(lst: seq<Obj>, target: Text, start: nat)
    requires Sorted(lst, ById())
    requires Contains(lst, target)
    ensures BinarySearch(lst, target, start) != -1
    decreases |lst|, 1
  {
    var k :| 0 <= k < |lst| && Identifier(lst[k]) == target;
    var mid := |lst| / 2;
    var identifier := Identifier(lst[mid]);
    if identifier != target {
      LexTrichotomy(target, identifier);
      if LexLt(target, identifier) {
        FindsBeforeMiddle(lst, target, start, k);
      } else {
        FindsAfterMiddle(lst, target, start, k);
      }
    }
  }

  /** The step of `BinarySearchFinds` when the target is below the middle
      identifier. */
  lemma {:induction false} FindsBeforeMiddle(lst: seq<Obj>, target: Text, start: nat, k: int)
    requires Sorted(lst, ById())
    requires 0 <= k < |lst| && Identifier(lst[k]) == target
    requires LexLt(target, Identifier(lst[|lst| / 2]))
    ensures BinarySearch(lst, target, start) != -1
    decreases |lst|, 0
  {
    var mid := |lst| / 2;
    BeforeMiddle(lst, k, mid);
    LeftHalfKeepsTarget(lst, target, k, mid);
    BinarySearchFinds(lst[..mid], target, start);
    SearchGoesLeft(lst, target, start);
  }

  /** The step of `BinarySearchFinds` when the target is above the middle
      identifier. */
  lemma {:induction false} FindsAfterMiddle(lst: seq<Obj>, target: Text, start: nat, k: int)
    requires Sorted(lst, ById())
    requires 0 <= k < |lst| && Identifier(lst[k]) == target
    requires LexLt(Identifier(lst[|lst| / 2]), target)
    ensures BinarySearch(lst, target, start) != -1
    decreases |lst|, 0
  {
    var mid := |lst| / 2;
    AfterMiddle(lst, k, mid);
    RightHalfKeepsTarget(lst, target, k, mid);
    BinarySearchFinds(lst[mid + 1..], target, start + mid + 1);
    LexTrichotomy(target, Identifier(lst[mid]));
    SearchGoesRight(lst, target, start);
  }

  lemma SearchGoesLeft(lst: seq<Obj>, target: Text, start: int)
    requires |lst| > 0 && LexLt(target, Identifier(lst[|lst| / 2]))
    ensures BinarySearch(lst, target, start) == BinarySearch(lst[..|lst| / 2], target, start)
  {
  }

  lemma SearchGoesRight(lst: seq<Obj>, target: Text, start: int)
    requires |lst| > 0 && Identifier(lst[|lst| / 2]) != target && !LexLt(target, Identifier(lst[|lst| / 2]))
    ensures BinarySearch(lst, target, start) == BinarySearch(lst[|lst| / 2 + 1..], target, start + |lst| / 2 + 1)
  {
  }

  /** The half before the middle is sorted and still holds the target. */
  lemma LeftHalfKeepsTarget(lst: seq<Obj>, target: Text, k: int, mid: int)
    requires Sorted(lst, ById())
    requires 0 <= k < mid <= |lst| && Identifier(lst[k]) == target
    ensures Sorted(lst[..mid], ById()) && Contains(lst[..mid], target)
  {
    assert lst[..mid][k] == lst[k];
  }

  /** The half after the middle is sorted and still holds the target. */
  lemma RightHalfKeepsTarget(lst: seq<Obj>, target: Text, k: int, mid: int)
    requires Sorted(lst, ById())
    requires 0 <= mid < k < |lst| && Identifier(lst[k]) == target
    ensures Sorted(lst[mid + 1..], ById()) && Contains(lst[mid + 1..], target)
  {
    var right := lst[mid + 1..];
    assert right[k - (mid + 1)] == lst[k];
    forall i, j | 0 <= i < j < |right|
      ensures ById()(right[i], right[j])
    {
      assert right[i] == lst[mid + 1 + i] && right[j] == lst[mid + 1 + j];
    }
  }

  /** Both directions of what `search` answers on a sorted list: -1 just
      when no identifier is the target, and otherwise a position holding
      the target identifier. */
  lemma BinarySearchCorrect(lst: seq<Obj>, target: Text)
    requires Sorted(lst, ById())
    ensures BinarySearch(lst, target, 0) == -1 <==> !Contains(lst, target)
    ensures BinarySearch(lst, target, 0) != -1 ==>
      0 <= BinarySearch(lst, target, 0) < |lst| && Identifier(lst[BinarySearch(lst, target, 0)]) == target
  {
    BinarySearchSound(lst, target, 0);
    if Contains(lst, target) {
      BinarySearchFinds(lst, target, 0);
    }
  }

  class File {
    /** `name`: the file the list is stored in. */
    const name: Text
    /** `list` */
    var list: seq<Obj>

    /** A file whose stored objects have been read. */
    constructor(name: Text, stored: seq<Obj>)
      ensures this.name == name && list == stored
    {
      this.name := name;
      list := stored;
    }

    /** `sort` */
    method Sort()
      modifies this
      ensures list == SortById(old(list))
    {
      list := SortById(list);
    }

    /** `search(target)` (tools.py:111-148): sorts the list, then searches
        it for `str(target)`. */
    method Search(target: Value) returns (pos: int)
      modifies this
      ensures list == SortById(old(list))
      ensures pos == BinarySearch(list, PyStr(target), 0)
      ensures pos == -1 <==> !Contains(list, PyStr(target))
      ensures pos != -1 ==> 0 <= pos < |list| && Identifier(list[pos]) == PyStr(target)
    {
      Sort();
      var t := PyStr(target);
      pos := BinarySearch(list, t, 0);
      BinarySearchCorrect(list, t);
    }

    /** `get_object` (tools.py:172-184) */
    method GetObject(identifier: Value) returns (r: Result<Obj, ObjectNotFound>)
      modifies this
      ensures list == SortById(old(list))
      ensures r.Err? <==> !Contains(list, PyStr(identifier))
      ensures r.Err? ==> r.error == ObjectNotFound(identifier, name)
      ensures r.Ok? ==> r.value in list && Identifier(r.value) == PyStr(identifier)
      ensures r.Ok? ==> var p := BinarySearch(list, PyStr(identifier), 0); 0 <= p < |list| && r.value == list[p]
    {
      var pos := Search(identifier);
      if pos == -1 {
        return Err(ObjectNotFound(identifier, name));
      }
      return Ok(list[pos]);
    }

    /** `add_object` (tools.py:186-195): appends, then sorts. */
    method AddObject(obj: Obj)
      modifies this
      ensures list == SortById(old(list) + [obj])
      ensures |list| == |old(list)| + 1 && Sorted(list, ById())
      ensures multiset(list) == multiset(old(list)) + multiset{obj}
    {
      list := list + [obj];
      Sort();
      assert |list| == |multiset(list)|;
    }

    /** `update_object` (tools.py:197-211): the slot `search` finds takes
        the new object; nothing else changes. */
    method UpdateObject(identifier: Value, obj: Obj) returns (r: Result<(), ObjectNotFound>)
      modifies this
      ensures var sorted := SortById(old(list));
        && (r.Err? <==> !Contains(sorted, PyStr(identifier)))
        && (r.Err? ==> r.error == ObjectNotFound(identifier, name) && list == sorted)
        && (r.Ok? ==> var p := BinarySearch(sorted, PyStr(identifier), 0);
              && 0 <= p < |sorted| && Identifier(sorted[p]) == PyStr(identifier)
              && list == sorted[p := obj])
    {
      var pos := Search(identifier);
      if pos == -1 {
        return Err(ObjectNotFound(identifier, name));
      }
      list := list[pos := obj];
      r := Ok(());
    }

    /** `remove_object` (tools.py:213-225): the object `search` finds
        leaves the list; the others keep their order. */
    method RemoveObject(identifier: Value) returns (r: Result<(), ObjectNotFound>)
      modifies this
      ensures var sorted := SortById(old(list));
        && (r.Err? <==> !Contains(sorted, PyStr(identifier)))
        && (r.Err? ==> r.error == ObjectNotFound(identifier, name) && list == sorted)
        && (r.Ok? ==> var p := BinarySearch(sorted, PyStr(identifier), 0);
              && 0 <= p < |sorted| && Identifier(sorted[p]) == PyStr(identifier)
              && list == sorted[..p] + sorted[p + 1..])
    {
      var pos := Search(identifier);
      if pos == -1 {
        return Err(ObjectNotFound(identifier, name));
      }
      list := list[..pos] + list[pos + 1..];
      r := Ok(());
    }
  }
}
