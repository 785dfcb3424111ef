/** The leaderboard of the ten quickest solves (features.py:339-410). */
module Leaderboards {
  import opened Text
  import opened Sorting

  /** `Leaderboard.Entry(id, name, time, moves)`; the time is a number of
      seconds. */
  datatype Entry = Entry(id: int, name: Text, time: real, moves: int)

  /** The board holds at most this many entries (features.py:392). */
  const MaxEntries := 10

  /** The key order of `sort`: by time. */
  function ByTime(): (Entry, Entry) -> bool
  {
    (a: Entry, b: Entry) => a.time <= b.time
  }

  lemma ByTimeIsPreorder()
    ensures TotalPreorder(ByTime())
  {
  }

  /** `sort`: the entries in order of time, quickest first. */
  function SortByTime(es: seq<Entry>): (r: seq<Entry>)
    ensures Sorted(r, ByTime())
    ensures multiset(r) == multiset(es)
  {
    ByTimeIsPreorder();
    InsertionSortSorted(es, ByTime());
    InsertionSort(es, ByTime())
  }

  /** The entries after `update_list(time, moves)` for the player `name`
      (features.py:383-406): a board with room gains an entry numbered by
      its length; on a full board a slower-or-equal time changes nothing
      and a quicker one takes over the slowest entry and its number; any
      change is followed by sorting. */
  function Updated(es: seq<Entry>, name: Text, time: real, moves: int): seq<Entry>
  {
    if |es| < MaxEntries then SortByTime(es + [Entry(|es|, name, time, moves)])
    else if es[|es| - 1].time <= time then es
    else SortByTime(es[|es| - 1 := Entry(es[|es| - 1].id, name, time, moves)])
  }

  /** A board as the game keeps it: sorted by time, at most ten entries. */
  predicate IsBoard(es: seq<Entry>)
  {
    Sorted(es, ByTime()) && |es| <= MaxEntries
  }

  /** `update_list` keeps a board a board. */
  lemma UpdatedIsBoard(es: seq<Entry>, name: Text, time: real, moves: int)
    requires IsBoard(es)
    ensures IsBoard(Updated(es, name, time, moves))
  {
    var r := Updated(es, name, time, moves);
    assert |r| == |multiset(r)|;
  }

  /** With room on the board, the new entry joins all the old ones, with
      the board's old length as its number. */
  lemma UpdatedWithRoom(es: seq<Entry>, name: Text, time: real, moves: int)
    requires |es| < MaxEntries
    ensures multiset(Updated(es, name, time, moves)) == multiset(es) + multiset{Entry(|es|, name, time, moves)}
  {
  }

  /** On a full board sorted by time, a time no quicker than the slowest
      changes nothing; every entry is then at least as quick as it. */
  lemma UpdatedTooSlow(es: seq<Entry>, name: Text, time: real, moves: int)
    requires Sorted(es, ByTime()) && |es| >= MaxEntries && es[|es| - 1].time <= time
    ensures Updated(es, name, time, moves) == es
    ensures forall k | 0 <= k < |es| :: es[k].time <= time
  {
    forall k | 0 <= k < |es|
      ensures es[k].time <= time
    {
      if k < |es| - 1 {
        assert ByTime()(es[k], es[|es| - 1]);
      }
    }
  }

  /** On a full board sorted by time, a quicker time drops exactly the
      slowest entry, which is no quicker than any entry that stays, and the
      new entry takes its number. */
  lemma UpdatedDropsSlowest(es: seq<Entry>, name: Text, time: real, moves: int)
    requires Sorted(es, ByTime()) && |es| >= MaxEntries && time < es[|es| - 1].time
    ensures var slowest := es[|es| - 1];
      && multiset(Updated(es, name, time, moves))
         == multiset(es) - multiset{slowest} + multiset{Entry(slowest.id, name, time, moves)}
      && forall e | e in Updated(es, name, time, moves) :: e.time <= slowest.time
  {
    var slowest := es[|es| - 1];
    var newEntry := Entry(slowest.id, name, time, moves);
    var replaced := es[|es| - 1 := newEntry];
    ReplaceLast(es, newEntry);
    var r := Updated(es, name, time, moves);
    assert r == SortByTime(replaced);
    assert multiset(r) == multiset(replaced);
    forall e | e in r
      ensures e.time <= slowest.time
    {
      assert e in multiset(r);
      assert e in multiset(replaced);
      NoSlowerThanLast(es, newEntry, e);
    }
  }

  /** Replacing the last entry swaps it for the new one in the multiset. */
  lemma ReplaceLast(es: seq<Entry>, e: Entry)
    requires es != []
    ensures multiset(es[|es| - 1 := e]) == multiset(es) - multiset{es[|es| - 1]} + multiset{e}
  {
    var init := es[..|es| - 1];
    assert es == init + [es[|es| - 1]];
    assert es[|es| - 1 := e] == init + [e];
  }

  /** On a board sorted by time, every entry is no slower than the last,
      and so is a quicker entry put in its place. */
  lemma NoSlowerThanLast(es: seq<Entry>, e: Entry, x: Entry)
    requires Sorted(es, ByTime()) && es != [] && e.time < es[|es| - 1].time
    requires x in es[|es| - 1 := e]
    ensures x.time <= es[|es| - 1].time
  {
    var replaced := es[|es| - 1 := e];
    var k :| 0 <= k < |replaced| && replaced[k] == x;
    if k < |es| - 1 {
      assert ByTime()(es[k], es[|es| - 1]);
    }
  }

  class Leaderboard {
    /** The top ten quickest solves, kept in order of time. */
    var entries: seq<Entry>

    /** `Leaderboard.__init__` with the entries read from the file: they
        are sorted on arrival (features.py:373-377). */
    constructor(stored: seq<Entry>)
      ensures entries == SortByTime(stored)
    {
      entries := SortByTime(stored);
    }

    /** `sort` (features.py:408-410) */
    method Sort()
      modifies this
      ensures entries == SortByTime(old(entries))
    {
      entries := SortByTime(entries);
    }

    /** `update_list(time, moves)` for the signed-in player `username`
        (features.py:383-406). */
    method UpdateList(username: Text, time: real, moves: int)
      modifies this
      ensures entries == Updated(old(entries), username, time, moves)
    {
      if |entries| < MaxEntries {
        entries := entries + [Entry(|entries|, username, time, moves)];
      } else if entries[|entries| - 1].time <= time {
        return;
      } else if entries[|entries| - 1].time > time {
        entries := entries[|entries| - 1 := Entry(entries[|entries| - 1].id, username, time, moves)];
      }
      Sort();
    }
  }
}
