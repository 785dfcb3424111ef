/** The user records of Login/user_management.py: users whose fields are
    stored encrypted, and the list of them kept in username order and
    searched by binary search. */
module Users {
  import opened Wrappers
  import opened Text
  import opened Sorting
  import opened Encryption

  /** `seperator` (Login/user_management.py:7): what joins the stored fields. */
  const Separator: Text := FromString("///")

  /** `User` (Login/user_management.py:9-116): every field holds the
      encrypted text. */
  datatype User = User(username: Text, password: Text, question: Text, answer: Text)

  function Encrypt(s: Text): Text { ConvertText(s, true) }
  function Decrypt(s: Text): Text { ConvertText(s, false) }

  /** `get_username`: the decrypted username. */
  function GetUsername(u: User): Text { Decrypt(u.username) }

  /** `get_question`: the decrypted question. */
  function GetQuestion(u: User): Text { Decrypt(u.question) }

  /** `check_password(to_check)`: the stored (encrypted) password is
      `to_check`. */
  predicate CheckPassword(u: User, toCheck: Text) { u.password == toCheck }

  /** `check_answer(to_check)` */
  predicate CheckAnswer(u: User, toCheck: Text) { u.answer == toCheck }

  /** `==`, `<` and `>` on users compare their decrypted usernames. */
  predicate UserEq(u: User, v: User) { GetUsername(u) == GetUsername(v) }
  predicate UserLt(u: User, v: User) { LexLt(GetUsername(u), GetUsername(v)) }
  predicate UserGt(u: User, v: User) { LexLt(GetUsername(v), GetUsername(u)) }

  /** Any two users are equal, or one is below the other, and only one of
      these holds. */
  lemma UserOrder(u: User, v: User)
    ensures UserEq(u, v) || UserLt(u, v) || UserGt(u, v)
    ensures !(UserLt(u, v) && UserGt(u, v))
    ensures UserEq(u, v) ==> !UserLt(u, v) && !UserGt(u, v)
  {
    LexTrichotomy(GetUsername(u), GetUsername(v));
  }

  /** The order the list is meant to be in: by decrypted username. */
  function ByUsername(): (User, User) -> bool
  {
    (u: User, v: User) => LexLe(GetUsername(u), GetUsername(v))
  }

  lemma ByUsernameIsPreorder()
    ensures TotalPreorder(ByUsername())
  {
    forall u: User, v: User
      ensures ByUsername()(u, v) || ByUsername()(v, u)
    {
      LexLeTotal(GetUsername(u), GetUsername(v));
    }
    forall u: User, v: User, w: User | ByUsername()(u, v) && ByUsername()(v, w)
      ensures ByUsername()(u, w)
    {
      LexLeTransitive(GetUsername(u), GetUsername(v), GetUsername(w));
    }
  }

  /** `__str__` (Login/user_management.py:107-116): the stored fields joined
      by the separator. */
  function UserString(u: User): (t: Text)
    ensures |t| == |u.username| + |u.password| + |u.question| + |u.answer| + 3 * |Separator|
  {
    Record(u, Separator)
  }

  // ---------------------------------------------------------------------
  // Reading a record back: Python's `str.split(seperator)`

  /** The first position at which `sep` occurs in `t`. */
  function Find(t: Text, sep: Text): (r: Option<nat>)
    requires |sep| > 0
    ensures r.Some? ==> r.value + |sep| <= |t| && t[r.value..r.value + |sep|] == sep
    decreases |t|
  {
    if |t| < |sep| then None
    else if t[..|sep|] == sep then Some(0)
    else match Find(t[1..], sep)
      case None => None
      case Some(i) =>
        assert t[1..][i..i + |sep|] == t[i + 1..i + 1 + |sep|];
        Some(i + 1)
  }

  /** `sep` occurs in `t` at position `k`. */
  predicate OccursAt(t: Text, sep: Text, k: nat)
  {
    k + |sep| <= |t| && t[k..k + |sep|] == sep
  }

  /** `Find` gives the leftmost occurrence: `sep` occurs at no earlier
      position, and at none at all when `Find` gives `None`. */
  lemma {:induction false} FindLeftmost(t: Text, sep: Text)
    requires |sep| > 0
    ensures Find(t, sep).Some? ==> forall k: nat | k < Find(t, sep).value :: !OccursAt(t, sep, k)
    ensures Find(t, sep).None? ==> forall k: nat :: !OccursAt(t, sep, k)
    decreases |t|
  {
    if |t| >= |sep| && t[..|sep|] != sep {
      var r := Find(t[1..], sep);
      FindLeftmost(t[1..], sep);
      assert Find(t, sep) == if r.None? then None else Some(r.value + 1);
      forall k: nat | r.None? || k < r.value + 1
        ensures !OccursAt(t, sep, k)
      {
        if k == 0 {
          assert k + |sep| <= |t| ==> t[k..k + |sep|] == t[..|sep|];
        } else if k + |sep| <= |t| {
          SliceOfTail(t, k, |sep|);
          assert !OccursAt(t[1..], sep, k - 1);
        }
      }
    }
  }

  lemma SliceOfTail(t: Text, k: nat, n: nat)
    requires 1 <= k && k + n <= |t|
    ensures t[1..][k - 1..k - 1 + n] == t[k..k + n]
  {
  }

  /** `t.split(sep)`: the pieces between the occurrences of `sep`, found
      from the left. */
  function Split(t: Text, sep: Text): seq<Text>
    requires |sep| > 0
    decreases |t|
  {
    match Find(t, sep)
    case None => [t]
    case Some(i) => [t[..i]] + Split(t[i + |sep|..], sep)
  }

  /** The code point of `/`, the separator's only code point. */
  const Slash := '/' as int

  /** `t` holds no `x`. */
  predicate FreeOf(t: Text, x: CodePoint)
  {
    forall k | 0 <= k < |t| :: t[k] != x
  }

  predicate SlashFree(t: Text)
  {
    FreeOf(t, Slash)
  }

  /** A text without the separator's first code point holds no separator. */
  lemma {:induction false} FindNone(t: Text, sep: Text)
    requires |sep| > 0 && FreeOf(t, sep[0])
    ensures Find(t, sep) == None
    decreases |t|
  {
    if |t| >= |sep| {
      assert t[..|sep|][0] != sep[0];
      FindNone(t[1..], sep);
    }
  }

  /** The first separator after such a text is the one right after it. */
  lemma {:induction false} FindAfter(a: Text, sep: Text, b: Text)
    requires |sep| > 0 && FreeOf(a, sep[0])
    ensures Find(a + sep + b, sep) == Some(|a|)
    decreases |a|
  {
    var t := a + sep + b;
    if a == [] {
      assert t[..|sep|] == sep;
    } else {
      assert t[..|sep|][0] != sep[0];
      assert t[1..] == a[1..] + sep + b;
      FindAfter(a[1..], sep, b);
    }
  }

  lemma SplitPiece(a: Text, sep: Text, b: Text)
    requires |sep| > 0 && FreeOf(a, sep[0])
    ensures Split(a + sep + b, sep) == [a] + Split(b, sep)
  {
    FindAfter(a, sep, b);
    var t := a + sep + b;
    assert t[..|a|] == a;
    assert t[|a| + |sep|..] == b;
  }

  /** The four stored fields joined by `sep`, as `__str__` joins them
      (concatenation is associative, so the grouping is only for proofs). */
  function Record(u: User, sep: Text): Text
  {
    u.username + sep + (u.password + sep + (u.question + sep + u.answer))
  }

  /** Splitting a record gives its four fields back when none of them
      holds the separator's first code point. */
  lemma SplitRecord(u: User, sep: Text)
    requires |sep| > 0
    requires FreeOf(u.username, sep[0]) && FreeOf(u.password, sep[0])
    requires FreeOf(u.question, sep[0]) && FreeOf(u.answer, sep[0])
    ensures Split(Record(u, sep), sep) == [u.username, u.password, u.question, u.answer]
  {
    RecordJoin(u, sep);
    SplitJoin([u.username, u.password, u.question, u.answer], sep);
  }

  lemma RecordJoin(u: User, sep: Text)
    ensures Record(u, sep) == Join([u.username, u.password, u.question, u.answer], sep)
  {
    var fields := [u.username, u.password, u.question, u.answer];
    assert Join(fields[1..][1..][1..], sep) == u.answer by {
      assert fields[1..][1..][1..] == [u.answer];
    }
    assert Join(fields[1..][1..], sep) == u.question + sep + u.answer;
    assert Join(fields[1..], sep) == u.password + sep + (u.question + sep + u.answer);
  }

  /** `fields` joined by `sep`. */
  function Join(fields: seq<Text>, sep: Text): Text
    requires |fields| > 0
    decreases |fields|
  {
    if |fields| == 1 then fields[0] else fields[0] + sep + Join(fields[1..], sep)
  }

  /** Splitting joined fields gives them back when none of them holds the
      separator's first code point. */
  lemma {:induction false} SplitJoin(fields: seq<Text>, sep: Text)
    requires |fields| > 0 && |sep| > 0
    requires forall i | 0 <= i < |fields| :: FreeOf(fields[i], sep[0])
    ensures Split(Join(fields, sep), sep) == fields
    decreases |fields|
  {
    if |fields| == 1 {
      FindNone(fields[0], sep);
    } else {
      assert forall i | 0 <= i < |fields| - 1 :: fields[1..][i] == fields[i + 1];
      SplitJoin(fields[1..], sep);
      SplitPiece(fields[0], sep, Join(fields[1..], sep));
    }
  }

  /** When no field holds a `/`, splitting a stored record gives its four
      fields back, as `read` expects (Login/user_management.py:144-145). */
  lemma SplitUserString(u: User)
    requires SlashFree(u.username) && SlashFree(u.password)
    requires SlashFree(u.question) && SlashFree(u.answer)
    ensures Split(UserString(u), Separator) == [u.username, u.password, u.question, u.answer]
  {
    SeparatorSlashes();
    SplitRecord(u, Separator);
  }

  lemma SeparatorSlashes()
    ensures Separator == [Slash, Slash, Slash]
  {
  }

  /** But encryption turns `%` (37) into `/` (47): the password "a%" is
      stored as "k/", and `read` then cuts the record one code point too
      early, so the second field read back is "k" and the password no
      longer checks after a reload. */
  lemma ReadSplitsSlashPassword(u: User)
    requires SlashFree(u.username) && u.password == Encrypt(FromString("a%"))
    ensures Encrypt(FromString("a%")) == [107, Slash]
    ensures |Split(UserString(u), Separator)| > 1
    ensures Split(UserString(u), Separator)[1] == [107] != u.password
  {
    EncryptedPercent();
    SeparatorSlashes();
    var rest := u.question + Separator + u.answer;
    var rest1 := u.password + Separator + rest;
    SplitPiece(u.username, Separator, rest1);
    SplitSlashFirst(rest);
  }

  /** A field "k/" followed by the separator is cut after the "k". */
  lemma SplitSlashFirst(rest: Text)
    ensures Split([107, Slash] + Separator + rest, Separator)[0] == [107]
  {
    SeparatorSlashes();
    var t := [107, Slash] + Separator + rest;
    assert t[..3] == [107, Slash, Slash] != Separator;
    assert t[1..][..3] == Separator;
    assert Find(t[1..], Separator) == Some(0);
    assert Find(t, Separator) == Some(1);
  }

  lemma EncryptedPercent()
    ensures Encrypt(FromString("a%")) == [107, Slash]
  {
    var t := FromString("a%");
    assert t == [97, 37];
    assert t[..1] == [97] && [97][..0] == [];
  }

  /** The corrected record separator: the ASCII unit separator (31),
      which lies below the printable range and so never occurs in
      encrypted printable text. */
  const UnitSeparator: Text := [31]

  /** With it, a user made from printable fields reads back exactly. */
  lemma SafeRecordRoundTrip(username: Text, password: Text, question: Text, answer: Text)
    requires PrintableText(username) && PrintableText(password)
    requires PrintableText(question) && PrintableText(answer)
    ensures var u := NewUser(username, password, question, answer);
      Split(Record(u, UnitSeparator), UnitSeparator) == [u.username, u.password, u.question, u.answer]
  {
    var u := NewUser(username, password, question, answer);
    EncryptedFree(username);
    EncryptedFree(password);
    EncryptedFree(question);
    EncryptedFree(answer);
    SplitRecord(u, UnitSeparator);
  }

  /** Encrypted printable text holds no unit separator. */
  lemma EncryptedFree(s: Text)
    requires PrintableText(s)
    ensures FreeOf(Encrypt(s), UnitSeparator[0])
  {
    ConvertTextPrintable(s, true);
  }

  // ---------------------------------------------------------------------
  // `merge_sort` as written (Login/user_management.py:156-198)

  /** The first `while` of the merge, in place on `lst`, with `k = i + j`;
      the final `lst`, `i` and `j`.  The left branch copies `lst[i]` where
      `left[i]` was meant (Login/user_management.py:179). */
  function AsWrittenMergeLoop<T>(lst: seq<T>, left: seq<T>, right: seq<T>, i: nat, j: nat, lt: (T, T) -> bool): (r: (seq<T>, nat, nat))
    requires i <= |left| && j <= |right| && |lst| == |left| + |right|
    ensures |r.0| == |lst| && i <= r.1 <= |left| && j <= r.2 <= |right|
    decreases |left| - i + |right| - j
  {
    if i < |left| && j < |right| then
      if lt(left[i], right[j]) then AsWrittenMergeLoop(lst[i + j := lst[i]], left, right, i + 1, j, lt)
      else AsWrittenMergeLoop(lst[i + j := right[j]], left, right, i, j + 1, lt)
    else (lst, i, j)
  }

  /** The leftovers of `left` copied from slot `k` on.  The leftovers of
      `right` are only counted past, never copied
      (Login/user_management.py:194-196), so nothing follows. */
  function AsWrittenCleanup<T>(lst: seq<T>, left: seq<T>, i: nat, k: nat): (r: seq<T>)
    requires i <= |left| && k + (|left| - i) <= |lst|
    ensures |r| == |lst|
    decreases |left| - i
  {
    if i < |left| then AsWrittenCleanup(lst[k := left[i]], left, i + 1, k + 1) else lst
  }

  /** `merge_sort(lst)` as written, with `lt` for `<` on the elements: both
      halves are sorted in the copies `left` and `right`, then merged back
      into `lst`.  What it does keep is the length. */
  function AsWrittenSort<T>(lst: seq<T>, lt: (T, T) -> bool): (r: seq<T>)
    ensures |r| == |lst|
    decreases |lst|
  {
    if |lst| > 1 then
      var mid := |lst| / 2;
      var left := AsWrittenSort(lst[..mid], lt);
      var right := AsWrittenSort(lst[mid..], lt);
      var m := AsWrittenMergeLoop(lst, left, right, 0, 0, lt);
      AsWrittenCleanup(m.0, left, m.1, m.1 + m.2)
    else lst
  }

  /** The counterexample: on three keys in the order 1, 3, 2 the as-written
      sort sorts the right half to 2, 3 and then leaves the list as it
      was, so the result is not sorted. */
  lemma AsWrittenSortFails()
    ensures AsWrittenSort([1, 3, 2], (a: int, b: int) => a < b) == [1, 3, 2]
    ensures !Sorted(AsWrittenSort([1, 3, 2], (a: int, b: int) => a < b), (a: int, b: int) => a <= b)
  {
    var lt := (a: int, b: int) => a < b;
    var lst := [1, 3, 2];
    assert lst[..1] == [1] && lst[1..] == [3, 2];
    assert AsWrittenSort([1], lt) == [1];
    var right := [3, 2];
    assert right[..1] == [3] && right[1..] == [2];
    assert AsWrittenSort([3], lt) == [3] && AsWrittenSort([2], lt) == [2];
    assert !lt(3, 2) && right[0 := 2] == [2, 2];
    assert AsWrittenMergeLoop(right, [3], [2], 0, 0, lt) == AsWrittenMergeLoop([2, 2], [3], [2], 0, 1, lt);
    assert AsWrittenMergeLoop([2, 2], [3], [2], 0, 1, lt) == ([2, 2], 0, 1);
    assert AsWrittenCleanup([2, 2], [3], 0, 1) == [2, 3];
    assert AsWrittenSort(right, lt) == [2, 3];
    assert lt(1, 2) && lst[0 := lst[0]] == lst;
    assert AsWrittenMergeLoop(lst, [1], [2, 3], 0, 0, lt) == AsWrittenMergeLoop(lst, [1], [2, 3], 1, 0, lt);
    assert AsWrittenMergeLoop(lst, [1], [2, 3], 1, 0, lt) == (lst, 1, 0);
    assert AsWrittenSort(lst, lt) == lst;
    assert !((a: int, b: int) => a <= b)(lst[1], lst[2]);
  }

  /** A user with the given (plain) username and no other fields. */
  function UserNamed(name: Text): User
  {
    User(Encrypt(name), [], [], [])
  }

  /** Users named "a", "b" and "c" are in that order. */
  lemma NamedInOrder()
    ensures UserLt(UserNamed(FromString("a")), UserNamed(FromString("b")))
    ensures UserLt(UserNamed(FromString("b")), UserNamed(FromString("c")))
  {
    var sa, sb, sc := FromString("a"), FromString("b"), FromString("c");
    assert sa == [97] && sb == [98] && sc == [99];
    NamedOne(97);
    NamedOne(98);
    NamedOne(99);
    LexLtOne(97, 98);
    LexLtOne(98, 99);
  }

  lemma LexLtOne(x: CodePoint, y: CodePoint)
    requires x < y
    ensures LexLt([x], [y])
  {
  }

  /** A one-letter name reads back from its user. */
  lemma NamedOne(x: CodePoint)
    requires Printable(x)
    ensures GetUsername(UserNamed([x])) == [x]
  {
    assert [x][..0] == [];
    var y := Convert(x, true);
    DecryptEncrypt(x);
    assert Encrypt([x]) == [y];
    assert [y][..0] == [];
    assert Decrypt([y]) == [x];
  }

  /** What the as-written `sort` does to `add_user`
      (Login/user_management.py:283-309): a sorted list of two users gains
      one whose name lies between theirs (for example "a" and "c" gain
      "b", see `NamedInOrder`), the sort leaves the list as it is, and
      `search` then misses the user just added. */
  lemma AsWrittenAddLosesUser(a: User, b: User, c: User)
    requires UserLt(a, b) && UserLt(b, c)
    ensures Sorted([a, c], ByUsername())
    ensures AsWrittenSort([a, c] + [b], UserLt) == [a, c, b]
    ensures BinaryUser(AsWrittenSort([a, c] + [b], UserLt), GetUsername(b), 0) == None
  {
    LexLeTransitive(GetUsername(a), GetUsername(b), GetUsername(c));
    UserOrder(c, b);
    UserOrder(a, b);
    assert ByUsername()(a, c);
    AsWrittenThree(a, b, c);
    var lst := [a, c, b];
    assert lst[..1] == [a];
    assert BinaryUser(lst, GetUsername(b), 0) == BinaryUser([a], GetUsername(b), 0);
  }

  /** The sorting half of `AsWrittenAddLosesUser`, traced step by step:
      the right half `c, b` is sorted to `b, c`, and then the first loop
      copies `a` onto itself and stops, so nothing else is written. */
  lemma AsWrittenThree(a: User, b: User, c: User)
    requires UserLt(a, b) && !UserLt(c, b)
    ensures AsWrittenSort([a, c] + [b], UserLt) == [a, c, b]
  {
    var lst := [a, c] + [b];
    assert lst == [a, c, b];
    assert lst[..1] == [a] && lst[1..] == [c, b];
    assert AsWrittenSort([a], UserLt) == [a];
    AsWrittenPair(c, b);
    assert lst[0 := lst[0]] == lst;
    assert AsWrittenMergeLoop(lst, [a], [b, c], 0, 0, UserLt) == AsWrittenMergeLoop(lst, [a], [b, c], 1, 0, UserLt);
    assert AsWrittenMergeLoop(lst, [a], [b, c], 1, 0, UserLt) == (lst, 1, 0);
  }

  /** Two users out of order are swapped by the as-written sort. */
  lemma AsWrittenPair(c: User, b: User)
    requires !UserLt(c, b)
    ensures AsWrittenSort([c, b], UserLt) == [b, c]
  {
    var right := [c, b];
    assert right[..1] == [c] && right[1..] == [b];
    assert AsWrittenSort([c], UserLt) == [c] && AsWrittenSort([b], UserLt) == [b];
    assert right[0 := b] == [b, b];
    assert AsWrittenMergeLoop(right, [c], [b], 0, 0, UserLt) == AsWrittenMergeLoop([b, b], [c], [b], 0, 1, UserLt);
    assert AsWrittenMergeLoop([b, b], [c], [b], 0, 1, UserLt) == ([b, b], 0, 1);
    assert AsWrittenCleanup([b, b], [c], 0, 1) == [b, c];
  }

  // ---------------------------------------------------------------------
  // `merge_sort` corrected: `left[i]` in the first loop and the right
  // leftovers copied

  /** `left[i] < right[j]` is the strict form of the key order. */
  lemma LtIsNotReverseLe(u: User, v: User)
    ensures UserLt(u, v) <==> !ByUsername()(v, u)
  {
    LexTrichotomy(GetUsername(u), GetUsername(v));
    LexLeTotal(GetUsername(u), GetUsername(v));
    if LexLe(GetUsername(v), GetUsername(u)) && LexLe(GetUsername(u), GetUsername(v)) {
      LexLeAntisymmetric(GetUsername(u), GetUsername(v));
    }
  }

  lemma TakeLeftUser(left: seq<User>, right: seq<User>, i: nat, j: nat, merged: seq<User>)
    requires i < |left| && j < |right| && UserLt(left[i], right[j])
    requires merged + Merge(left[i..], right[j..], ByUsername()) == Merge(left, right, ByUsername())
    ensures (merged + [left[i]]) + Merge(left[i + 1..], right[j..], ByUsername()) == Merge(left, right, ByUsername())
  {
    LtIsNotReverseLe(left[i], right[j]);
    MergeTakeLeft(left, right, i, j, ByUsername(), merged);
  }

  lemma TakeRightUser(left: seq<User>, right: seq<User>, i: nat, j: nat, merged: seq<User>)
    requires i < |left| && j < |right| && !UserLt(left[i], right[j])
    requires merged + Merge(left[i..], right[j..], ByUsername()) == Merge(left, right, ByUsername())
    ensures (merged + [right[j]]) + Merge(left[i..], right[j + 1..], ByUsername()) == Merge(left, right, ByUsername())
  {
    LtIsNotReverseLe(left[i], right[j]);
    MergeTakeRight(left, right, i, j, ByUsername(), merged);
  }

  /** The first merge loop: while both halves have users left, the lower
      of the two next users is taken, the right one on a tie. */
  method MergeWhileBoth(left: seq<User>, right: seq<User>) returns (merged: seq<User>, i: nat, j: nat)
    ensures i <= |left| && j <= |right| && (i == |left| || j == |right|)
    ensures merged + Merge(left[i..], right[j..], ByUsername()) == Merge(left, right, ByUsername())
  {
    merged := [];
    i, j := 0, 0;
    while i < |left| && j < |right|
      invariant i <= |left| && j <= |right|
      invariant merged + Merge(left[i..], right[j..], ByUsername()) == Merge(left, right, ByUsername())
      decreases |left| - i + |right| - j
    {
      if UserLt(left[i], right[j]) {
        TakeLeftUser(left, right, i, j, merged);
        merged := merged + [left[i]];
        i := i + 1;
      } else {
        TakeRightUser(left, right, i, j, merged);
        merged := merged + [right[j]];
        j := j + 1;
      }
    }
  }

  /** A cleanup loop: the users of `s` from position `i` on are appended
      in order. */
  method AppendRest(acc: seq<User>, s: seq<User>, i: nat) returns (r: seq<User>)
    requires i <= |s|
    ensures r == acc + s[i..]
  {
    r := acc;
    var k := i;
    while k < |s|
      invariant i <= k <= |s|
      invariant r + s[k..] == acc + s[i..]
    {
      MoveHead(r, s, k, []);
      assert r + s[k..] + [] == r + s[k..];
      assert (r + [s[k]]) + s[k + 1..] + [] == (r + [s[k]]) + s[k + 1..];
      r := r + [s[k]];
      k := k + 1;
    }
    assert s[k..] == [];
    assert r + s[k..] == r;
  }

  /** The merge of two sorted halves with its three `while` loops. */
  method MergeUsers(left: seq<User>, right: seq<User>) returns (merged: seq<User>)
    ensures merged == Merge(left, right, ByUsername())
  {
    var i, j;
    merged, i, j := MergeWhileBoth(left, right);
    MergeOneSideDone(left, right, i, j, ByUsername(), merged);
    merged := AppendRest(merged, left, i);
    merged := AppendRest(merged, right, j);
  }

  /** `merge_sort(lst)` as meant: the list sorted by username. */
  method MergeSortUsers(lst: seq<User>) returns (sorted: seq<User>)
    ensures sorted == MergeSort(lst, ByUsername())
    decreases |lst|
  {
    if |lst| <= 1 {
      return lst;
    }
    var mid := |lst| / 2;
    var left := MergeSortUsers(lst[..mid]);
    var right := MergeSortUsers(lst[mid..]);
    sorted := MergeUsers(left, right);
  }

  /** The corrected sort puts the users in username order and loses or
      adds none. */
  lemma SortUsersCorrect(lst: seq<User>)
    ensures Sorted(MergeSort(lst, ByUsername()), ByUsername())
    ensures multiset(MergeSort(lst, ByUsername())) == multiset(lst)
  {
    ByUsernameIsPreorder();
    MergeSortSorted(lst, ByUsername());
  }

  // ---------------------------------------------------------------------
  // `search` (Login/user_management.py:200-231)

  /** `binary(lst, pos)`: `None` is the `False` of a missing user.  The
      final `None` cannot be reached, since one of `==`, `>` and `<` holds. */
  function BinaryUser(lst: seq<User>, username: Text, pos: nat): Option<nat>
    decreases |lst|
  {
    var mid := |lst| / 2;
    if |lst| == 0 then None
    else if |lst| == 1 && GetUsername(lst[0]) != username then None
    else if username == GetUsername(lst[mid]) then Some(pos + mid)
    else if LexLt(GetUsername(lst[mid]), username) then BinaryUser(lst[mid..], username, pos + mid)
    else if LexLt(username, GetUsername(lst[mid])) then BinaryUser(lst[..mid], username, pos)
    else None
  }

  /** What a position found by `binary` on the section `lst` starting at
      `pos` means: it lies in the section and holds the username. */
  predicate FoundIn(lst: seq<User>, username: Text, pos: nat, r: Option<nat>)
  {
    r.Some? ==> pos <= r.value < pos + |lst| && GetUsername(lst[r.value - pos]) == username
  }

  /** A position `binary` finds lies in the searched section and holds a
      user with the username. */
  lemma {:induction false} BinaryUserSound(lst: seq<User>, username: Text, pos: nat)
    ensures FoundIn(lst, username, pos, BinaryUser(lst, username, pos))
    decreases |lst|, 1
  {
    var mid := |lst| / 2;
    if |lst| > 1 && username != GetUsername(lst[mid]) {
      if LexLt(GetUsername(lst[mid]), username) {
        SoundRight(lst, username, pos);
      } else if LexLt(username, GetUsername(lst[mid])) {
        SoundLeft(lst, username, pos);
      }
    }
  }

  lemma {:induction false} SoundRight(lst: seq<User>, username: Text, pos: nat)
    requires |lst| > 1
    requires username != GetUsername(lst[|lst| / 2]) && LexLt(GetUsername(lst[|lst| / 2]), username)
    ensures FoundIn(lst, username, pos, BinaryUser(lst, username, pos))
    decreases |lst|, 0
  {
    var mid := |lst| / 2;
    var right := lst[mid..];
    BinaryUserSound(right, username, pos + mid);
    UserSearchGoesRight(lst, username, pos);
    var r := BinaryUser(right, username, pos + mid);
    if r.Some? {
      assert right[r.value - (pos + mid)] == lst[r.value - pos];
    }
  }

  lemma {:induction false} SoundLeft(lst: seq<User>, username: Text, pos: nat)
    requires |lst| > 1
    requires username != GetUsername(lst[|lst| / 2]) && !LexLt(GetUsername(lst[|lst| / 2]), username)
    requires LexLt(username, GetUsername(lst[|lst| / 2]))
    ensures FoundIn(lst, username, pos, BinaryUser(lst, username, pos))
    decreases |lst|, 0
  {
    var mid := |lst| / 2;
    var left := lst[..mid];
    BinaryUserSound(left, username, pos);
    UserSearchGoesLeft(lst, username, pos);
    var r := BinaryUser(left, username, pos);
    if r.Some? {
      assert left[r.value - pos] == lst[r.value - pos];
    }
  }

  lemma UserSearchGoesLeft(lst: seq<User>, username: Text, pos: nat)
    requires |lst| > 1
    requires username != GetUsername(lst[|lst| / 2]) && !LexLt(GetUsername(lst[|lst| / 2]), username)
    requires LexLt(username, GetUsername(lst[|lst| / 2]))
    ensures BinaryUser(lst, username, pos) == BinaryUser(lst[..|lst| / 2], username, pos)
  {
  }

  /** Some user of `lst` has the (decrypted) username `username`. */
  predicate HasUser(lst: seq<User>, username: Text)
  {
    exists k | 0 <= k < |lst| :: GetUsername(lst[k]) == username
  }

  lemma UserBeforeMiddle(lst: seq<User>, k: int, mid: int)
    requires Sorted(lst, ByUsername())
    requires 0 <= k < |lst| && 0 <= mid < |lst|
    requires LexLt(GetUsername(lst[k]), GetUsername(lst[mid]))
    ensures k < mid
  {
    if mid < k {
      assert ByUsername()(lst[mid], lst[k]);
      LexLeAntisymmetric(GetUsername(lst[k]), GetUsername(lst[mid]));
    }
  }

  lemma UserAfterMiddle(lst: seq<User>, k: int, mid: int)
    requires Sorted(lst, ByUsername())
    requires 0 <= k < |lst| && 0 <= mid < |lst|
    requires LexLt(GetUsername(lst[mid]), GetUsername(lst[k]))
    ensures mid < k
  {
    if k < mid {
      assert ByUsername()(lst[k], lst[mid]);
      LexLeAntisymmetric(GetUsername(lst[k]), GetUsername(lst[mid]));
    }
  }

  lemma UserInLeftHalf(lst: seq<User>, username: Text, k: int, mid: int)
    requires Sorted(lst, ByUsername())
    requires 0 <= k < mid <= |lst| && GetUsername(lst[k]) == username
    ensures Sorted(lst[..mid], ByUsername()) && HasUser(lst[..mid], username)
  {
    assert lst[..mid][k] == lst[k];
  }

  lemma UserInRightHalf(lst: seq<User>, username: Text, k: int, mid: int)
    requires Sorted(lst, ByUsername())
    requires 0 <= mid <= k < |lst| && GetUsername(lst[k]) == username
    ensures Sorted(lst[mid..], ByUsername()) && HasUser(lst[mid..], username)
  {
    var right := lst[mid..];
    assert right[k - mid] == lst[k];
    forall i, j | 0 <= i < j < |right|
      ensures ByUsername()(right[i], right[j])
    {
      assert right[i] == lst[mid + i] && right[j] == lst[mid + j];
    }
  }

  /** On a list sorted by username, `binary` finds every user it holds. */
  lemma {:induction false} BinaryUserFinds(lst: seq<User>, username: Text, pos: nat)
    requires Sorted(lst, ByUsername()) && HasUser(lst, username)
    ensures BinaryUser(lst, username, pos).Some?
    decreases |lst|, 1
  {
    var k :| 0 <= k < |lst| && GetUsername(lst[k]) == username;
    var mid := |lst| / 2;
    var name := GetUsername(lst[mid]);
    if name != username {
      LexTrichotomy(username, name);
      if LexLt(name, username) {
        FindsAfterMiddleUser(lst, username, pos, k);
      } else {
        FindsBeforeMiddleUser(lst, username, pos, k);
      }
    }
  }

  lemma {:induction false} FindsAfterMiddleUser(lst: seq<User>, username: Text, pos: nat, k: int)
    requires Sorted(lst, ByUsername())
    requires 0 <= k < |lst| && GetUsername(lst[k]) == username
    requires LexLt(GetUsername(lst[|lst| / 2]), username)
    ensures BinaryUser(lst, username, pos).Some?
    decreases |lst|, 0
  {
    var mid := |lst| / 2;
    UserAfterMiddle(lst, k, mid);
    UserInRightHalf(lst, username, k, mid);
    BinaryUserFinds(lst[mid..], username, pos + mid);
  }

  lemma {:induction false} FindsBeforeMiddleUser(lst: seq<User>, username: Text, pos: nat, k: int)
    requires Sorted(lst, ByUsername())
    requires 0 <= k < |lst| && GetUsername(lst[k]) == username
    requires LexLt(username, GetUsername(lst[|lst| / 2]))
    ensures BinaryUser(lst, username, pos).Some?
    decreases |lst|, 0
  {
    var mid := |lst| / 2;
    UserBeforeMiddle(lst, k, mid);
    UserInLeftHalf(lst, username, k, mid);
    BinaryUserFinds(lst[..mid], username, pos);
    LexTrichotomy(username, GetUsername(lst[mid]));
  }

  /** On a sorted list `search` answers `False` exactly when no user has
      the username, and otherwise a position holding it. */
  lemma BinaryUserCorrect(lst: seq<User>, username: Text)
    requires Sorted(lst, ByUsername())
    ensures BinaryUser(lst, username, 0).None? <==> !HasUser(lst, username)
    ensures BinaryUser(lst, username, 0).Some? ==>
      BinaryUser(lst, username, 0).value < |lst| && GetUsername(lst[BinaryUser(lst, username, 0).value]) == username
  {
    BinaryUserSound(lst, username, 0);
    if HasUser(lst, username) {
      BinaryUserFinds(lst, username, 0);
    }
  }

  /** Two lists whose users have the same usernames, place by place. */
  function Names(lst: seq<User>): (r: seq<Text>)
    ensures |r| == |lst|
  {
    seq(|lst|, i requires 0 <= i < |lst| => GetUsername(lst[i]))
  }

  predicate SameNames(a: seq<User>, b: seq<User>)
  {
    Names(a) == Names(b)
  }

  lemma SameNamesHalves(a: seq<User>, b: seq<User>, mid: nat)
    requires SameNames(a, b) && mid <= |a|
    ensures SameNames(a[..mid], b[..mid]) && SameNames(a[mid..], b[mid..])
  {
    assert Names(a[..mid]) == Names(a)[..mid];
    assert Names(b[..mid]) == Names(b)[..mid];
    assert Names(a[mid..]) == Names(a)[mid..];
    assert Names(b[mid..]) == Names(b)[mid..];
  }

  lemma SameNameAt(a: seq<User>, b: seq<User>, k: nat)
    requires SameNames(a, b) && k < |a|
    ensures |b| == |a| && GetUsername(a[k]) == GetUsername(b[k])
  {
    assert Names(a)[k] == Names(b)[k];
  }

  /** `binary` looks only at usernames, so a changed password or answer
      does not change what it finds. */
  lemma {:induction false} BinaryUserSeesOnlyNames(a: seq<User>, b: seq<User>, username: Text, pos: nat)
    requires SameNames(a, b)
    ensures BinaryUser(a, username, pos) == BinaryUser(b, username, pos)
    decreases |a|, 1
  {
    if |a| > 1 {
      var name := GetUsername(a[|a| / 2]);
      SameNameAt(a, b, |a| / 2);
      if username != name {
        if LexLt(name, username) {
          SeesOnlyNamesRight(a, b, username, pos);
        } else if LexLt(username, name) {
          SeesOnlyNamesLeft(a, b, username, pos);
        }
      }
    } else if |a| == 1 {
      SameNameAt(a, b, 0);
    } else {
      assert |b| == 0;
    }
  }

  lemma {:induction false} SeesOnlyNamesRight(a: seq<User>, b: seq<User>, username: Text, pos: nat)
    requires SameNames(a, b) && |a| > 1
    requires username != GetUsername(a[|a| / 2]) && LexLt(GetUsername(a[|a| / 2]), username)
    ensures BinaryUser(a, username, pos) == BinaryUser(b, username, pos)
    decreases |a|, 0
  {
    var mid := |a| / 2;
    SameNameAt(a, b, mid);
    SameNamesHalves(a, b, mid);
    BinaryUserSeesOnlyNames(a[mid..], b[mid..], username, pos + mid);
    UserSearchGoesRight(a, username, pos);
    UserSearchGoesRight(b, username, pos);
  }

  lemma UserSearchGoesRight(lst: seq<User>, username: Text, pos: nat)
    requires |lst| > 1
    requires username != GetUsername(lst[|lst| / 2]) && LexLt(GetUsername(lst[|lst| / 2]), username)
    ensures BinaryUser(lst, username, pos) == BinaryUser(lst[|lst| / 2..], username, pos + |lst| / 2)
  {
  }

  lemma {:induction false} SeesOnlyNamesLeft(a: seq<User>, b: seq<User>, username: Text, pos: nat)
    requires SameNames(a, b) && |a| > 1
    requires username != GetUsername(a[|a| / 2]) && !LexLt(GetUsername(a[|a| / 2]), username)
    requires LexLt(username, GetUsername(a[|a| / 2]))
    ensures BinaryUser(a, username, pos) == BinaryUser(b, username, pos)
    decreases |a|, 0
  {
    var mid := |a| / 2;
    SameNameAt(a, b, mid);
    SameNamesHalves(a, b, mid);
    BinaryUserSeesOnlyNames(a[..mid], b[..mid], username, pos);
  }

  /** A change of password keeps every username. */
  lemma NameKeptOnPasswordChange(lst: seq<User>, p: nat, password: Text)
    requires p < |lst|
    ensures SameNames(lst, lst[p := lst[p].(password := password)])
  {
    var changed := lst[p := lst[p].(password := password)];
    assert forall k | 0 <= k < |lst| :: Names(lst)[k] == Names(changed)[k];
  }

  /** The user `add_user` creates: every field encrypted. */
  function NewUser(username: Text, password: Text, question: Text, answer: Text): User
  {
    User(Encrypt(username), Encrypt(password), Encrypt(question), Encrypt(answer))
  }

  /** A new printable user's stored fields decrypt to what was given, and
      only its own password and answer pass its checks. */
  lemma NewUserReadsBack(username: Text, password: Text, question: Text, answer: Text, p: Text, a: Text)
    requires PrintableText(username) && PrintableText(password) && PrintableText(question) && PrintableText(answer)
    requires PrintableText(p) && PrintableText(a)
    ensures GetUsername(NewUser(username, password, question, answer)) == username
    ensures GetQuestion(NewUser(username, password, question, answer)) == question
    ensures CheckPassword(NewUser(username, password, question, answer), Encrypt(p)) <==> p == password
    ensures CheckAnswer(NewUser(username, password, question, answer), Encrypt(a)) <==> a == answer
  {
    TextDecryptEncrypt(username);
    TextDecryptEncrypt(question);
    if Encrypt(p) == Encrypt(password) {
      EncryptInjective(p, password);
    }
    if Encrypt(a) == Encrypt(answer) {
      EncryptInjective(a, answer);
    }
  }

  /** A change of password keeps a list sorted by username. */
  lemma PasswordChangeKeepsOrder(lst: seq<User>, p: nat, password: Text)
    requires Sorted(lst, ByUsername()) && p < |lst|
    ensures Sorted(lst[p := lst[p].(password := password)], ByUsername())
  {
    var changed := lst[p := lst[p].(password := password)];
    forall i, j | 0 <= i < j < |changed|
      ensures ByUsername()(changed[i], changed[j])
    {
      assert ByUsername()(lst[i], lst[j]);
      assert GetUsername(changed[i]) == GetUsername(lst[i]) && GetUsername(changed[j]) == GetUsername(lst[j]);
    }
  }

  /** `UserList` (Login/user_management.py:119-325): the users, kept in
      order of decrypted username. */
  class UserList {
    var list: seq<User>

    /** The list is sorted by username, as `search` needs. */
    predicate Valid()
      reads this
    {
      Sorted(list, ByUsername())
    }

    /** `UserList()` with the users read from the file, sorted. */
    constructor(stored: seq<User>)
      ensures list == MergeSort(stored, ByUsername())
      ensures Valid()
    {
      var sorted := MergeSortUsers(stored);
      SortUsersCorrect(stored);
      list := sorted;
    }

    /** `search(username)` (Login/user_management.py:200-231): the position
        of the user, `None` for `False`. */
    function Search(username: Text): (r: Option<nat>)
      reads this
      ensures r.Some? ==> r.value < |list| && GetUsername(list[r.value]) == username
    {
      BinaryUserSound(list, username, 0);
      BinaryUser(list, username, 0)
    }

    /** `check_password(username, password)`
        (Login/user_management.py:233-244): `None` (Python's `None`) for an
        unknown user, else whether the stored password is the encrypted
        one given. */
    function CheckPasswordOf(username: Text, password: Text): (r: Option<bool>)
      reads this
      ensures r.None? <==> Search(username).None?
    {
      match Search(username)
      case None => None
      case Some(pos) => Some(CheckPassword(list[pos], Encrypt(password)))
    }

    /** `check_answer(username, answer)` (Login/user_management.py:270-281) */
    function CheckAnswerOf(username: Text, answer: Text): (r: Option<bool>)
      reads this
      ensures r.None? <==> Search(username).None?
    {
      match Search(username)
      case None => None
      case Some(pos) => Some(CheckAnswer(list[pos], Encrypt(answer)))
    }

    /** `get_question(username)` (Login/user_management.py:257-268):
        `None` for `False`, else the user's decrypted question. */
    function GetQuestionOf(username: Text): (r: Option<Text>)
      reads this
      ensures r.None? <==> Search(username).None?
    {
      match Search(username)
      case None => None
      case Some(pos) => Some(GetQuestion(list[pos]))
    }

    /** `change_password(username, password)`
        (Login/user_management.py:246-255): only the found user's password
        changes, to the encrypted new one; the same user is found again and
        the new password now passes. */
    method ChangePassword(username: Text, password: Text)
      modifies this
      ensures old(Search(username)).None? ==> list == old(list)
      ensures old(Search(username)).Some? ==>
        var p := old(Search(username)).value;
        && list == old(list)[p := old(list)[p].(password := Encrypt(password))]
        && Search(username) == old(Search(username))
        && CheckPasswordOf(username, password) == Some(true)
      ensures old(Valid()) ==> Valid()
    {
      var pos := Search(username);
      if pos.Some? {
        var p := pos.value;
        ghost var before := list;
        if Valid() {
          PasswordChangeKeepsOrder(list, p, Encrypt(password));
        }
        list := list[p := list[p].(password := Encrypt(password))];
        NameKeptOnPasswordChange(before, p, Encrypt(password));
        BinaryUserSeesOnlyNames(before, list, username, 0);
      }
    }

    /** `add_user(username, password, question, answer)`
        (Login/user_management.py:283-309): a username already found is
        refused and nothing changes; a new one joins, encrypted, and the
        list is sorted again, after which the user is found. */
    method AddUser(username: Text, password: Text, question: Text, answer: Text) returns (added: bool)
      modifies this
      ensures added <==> old(Search(username)).None?
      ensures !added ==> list == old(list)
      ensures added ==> list == MergeSort(old(list) + [NewUser(username, password, question, answer)], ByUsername())
      ensures added ==> Valid() && multiset(list) == multiset(old(list)) + multiset{NewUser(username, password, question, answer)}
      ensures added && PrintableText(username) ==> Search(username).Some?
    {
      if Search(username).Some? {
        return false;
      }
      var user := NewUser(username, password, question, answer);
      ghost var grown := list + [user];
      var sorted := MergeSortUsers(list + [user]);
      SortUsersCorrect(grown);
      list := sorted;
      if PrintableText(username) {
        TextDecryptEncrypt(username);
        assert user in multiset(list);
        var k :| 0 <= k < |list| && list[k] == user;
        BinaryUserCorrect(list, username);
      }
      return true;
    }
  }
}
