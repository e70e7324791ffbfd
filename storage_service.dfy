// The leaderboard kept under one key of a key-value store: read it back, add a finished game
// in time order, and look up the best entry for a board size and difficulty.

module StorageService {
  import opened Types
  import opened Constants

  /** What the store holds under a key: a serialized list of entries, or text that does not parse. */
  datatype StoredValue = Serialized(entries: seq<LeaderboardEntry>) | Unparsable

  /** Ascending by time. */
  predicate SortedByTime(s: seq<LeaderboardEntry>)
  {
    forall i, j | 0 <= i < j < |s| :: s[i].time <= s[j].time
  }

  /** The entries of `s` with time `t`, in their order in `s`. */
  function WithTime(s: seq<LeaderboardEntry>, t: int): seq<LeaderboardEntry>
  {
    if s == [] then []
    else WithTime(s[..|s| - 1], t) + (if s[|s| - 1].time == t then [s[|s| - 1]] else [])
  }

  lemma {:induction false} WithTimeAppend(s: seq<LeaderboardEntry>, u: seq<LeaderboardEntry>, t: int)
    ensures WithTime(s + u, t) == WithTime(s, t) + WithTime(u, t)
    decreases |u|
  {
    if u != [] {
      assert (s + u)[..|s + u| - 1] == s + u[..|u| - 1];
      WithTimeAppend(s, u[..|u| - 1], t);
    } else {
      assert s + u == s;
    }
  }

  /** Inserts `e` into the sorted `s` after every entry whose time is not greater than its own. */
  function InsertByTime(s: seq<LeaderboardEntry>, e: LeaderboardEntry): (r: seq<LeaderboardEntry>)
    requires SortedByTime(s)
    ensures |r| == |s| + 1
    ensures forall x :: x in r <==> x in s || x == e
    ensures SortedByTime(r)
    ensures multiset(r) == multiset(s) + multiset{e}
  {
    if s == [] || s[|s| - 1].time <= e.time then s + [e]
    else
      var init, last := s[..|s| - 1], s[|s| - 1];
      assert s == init + [last];
      var rest := InsertByTime(init, e);
      assert forall x | x in rest :: x.time <= last.time by {
        forall x | x in rest ensures x.time <= last.time {
          if x != e {
            var j :| 0 <= j < |init| && init[j] == x;
            assert s[j] == x;
          }
        }
      }
      rest + [last]
  }

  /** Inserting keeps the entries of each time in order, the new one after the old. */
  lemma {:induction false} InsertStable(s: seq<LeaderboardEntry>, e: LeaderboardEntry, t: int)
    requires SortedByTime(s)
    ensures WithTime(InsertByTime(s, e), t) == WithTime(s, t) + (if e.time == t then [e] else [])
  {
    if s == [] || s[|s| - 1].time <= e.time {
      WithTimeAppend(s, [e], t);
      WithTimeSingle(e, t);
    } else {
      var init, last := s[..|s| - 1], s[|s| - 1];
      assert s == init + [last];
      var rest := InsertByTime(init, e);
      assert InsertByTime(s, e) == rest + [last];
      InsertStable(init, e, t);
      WithTimeAppend(rest, [last], t);
      WithTimeAppend(init, [last], t);
      WithTimeSingle(last, t);
      SwapEmpty(WithTime(init, t), (if e.time == t then [e] else []), (if last.time == t then [last] else []));
    }
  }

  lemma WithTimeSingle(x: LeaderboardEntry, t: int)
    ensures WithTime([x], t) == if x.time == t then [x] else []
  {
    assert [x][..0] == [];
  }

  lemma SwapEmpty<T>(w: seq<T>, a: seq<T>, b: seq<T>)
    requires a == [] || b == []
    ensures w + a + b == w + b + a
  {
    if a == [] {
      assert w + a == w;
    } else {
      assert w + a + b == w + a;
    }
  }

  /** A stable sort by ascending time, as Array.prototype.sort with the comparator a.time - b.time. */
  function SortByTime(s: seq<LeaderboardEntry>): (r: seq<LeaderboardEntry>)
    ensures SortedByTime(r)
    ensures multiset(r) == multiset(s)
    ensures |r| == |s|
  {
    if s == [] then []
    else
      assert s == s[..|s| - 1] + [s[|s| - 1]];
      InsertByTime(SortByTime(s[..|s| - 1]), s[|s| - 1])
  }

  /** The sort is stable: for every time, the entries with that time keep their relative order. */
  lemma {:induction false} SortStable(s: seq<LeaderboardEntry>, t: int)
    ensures WithTime(SortByTime(s), t) == WithTime(s, t)
  {
    if s != [] {
      var init, last := s[..|s| - 1], s[|s| - 1];
      SortStable(init, t);
      InsertStable(SortByTime(init), last, t);
    }
  }

  predicate Matches(e: LeaderboardEntry, size: BoardSize, difficulty: Difficulty)
  {
    e.size == size && e.difficulty == difficulty
  }

  /** The entries recorded for one board size and difficulty, in stored order. */
  function Matching(s: seq<LeaderboardEntry>, size: BoardSize, difficulty: Difficulty): (r: seq<LeaderboardEntry>)
    ensures forall e :: e in r <==> e in s && Matches(e, size, difficulty)
    ensures r != [] ==> exists k | 0 <= k < |s| :: s[k] == r[0] && forall j | 0 <= j < k :: !Matches(s[j], size, difficulty)
  {
    if s == [] then []
    else if Matches(s[0], size, difficulty) then [s[0]] + Matching(s[1..], size, difficulty)
    else
      var rest := Matching(s[1..], size, difficulty);
      assert rest != [] ==> s[1..][0] == s[1] && exists k | 1 <= k < |s| :: s[k] == rest[0] && forall j | 0 <= j < k :: !Matches(s[j], size, difficulty) by {
        if rest != [] {
          var k :| 0 <= k < |s[1..]| && s[1..][k] == rest[0] && forall j | 0 <= j < k :: !Matches(s[1..][j], size, difficulty);
          assert s[k + 1] == rest[0];
          forall j | 0 <= j < k + 1 ensures !Matches(s[j], size, difficulty) {
            if j > 0 {
              assert s[j] == s[1..][j - 1];
            }
          }
        }
      }
      rest
  }

  /** The leaderboard held in a key-value store (the browser's local storage). */
  class LeaderboardStore {
    var items: map<string, StoredValue>

    constructor(items0: map<string, StoredValue>)
      ensures items == items0
    {
      items := items0;
    }

    /** The stored entries; nothing stored, or text that does not parse, reads as an empty board. */
    function GetLeaderboard(): (r: seq<LeaderboardEntry>)
      reads this
      ensures StorageKey !in items ==> r == []
      ensures StorageKey in items && items[StorageKey].Unparsable? ==> r == []
      ensures StorageKey in items && items[StorageKey].Serialized? ==> r == items[StorageKey].entries
    {
      if StorageKey in items && items[StorageKey].Serialized? then items[StorageKey].entries else []
    }

    /** Records a finished game with the given id and date: the stored entries plus the new one,
        sorted by time, are written back under the key and returned. */
    method SaveLeaderboardEntry(entry: EntryDraft, id: string, date: string) returns (updated: seq<LeaderboardEntry>)
      modifies this
      ensures items == old(items)[StorageKey := Serialized(updated)]
      ensures GetLeaderboard() == updated
      ensures |updated| == |old(GetLeaderboard())| + 1
      ensures var e := LeaderboardEntry(id, entry.playerName, entry.time, date, entry.size, entry.difficulty);
        && SortedByTime(updated)
        && multiset(updated) == multiset(old(GetLeaderboard())) + multiset{e}
        && forall t :: WithTime(updated, t) == WithTime(old(GetLeaderboard()), t) + (if t == e.time then [e] else [])
    {
      var current := GetLeaderboard();
      var newEntry := LeaderboardEntry(id, entry.playerName, entry.time, date, entry.size, entry.difficulty);
      updated := SortByTime(current + [newEntry]);
      forall t ensures WithTime(updated, t) == WithTime(current, t) + (if t == newEntry.time then [newEntry] else []) {
        SortStable(current + [newEntry], t);
        WithTimeAppend(current, [newEntry], t);
      }
      items := items[StorageKey := Serialized(updated)];
    }

    /** The first stored entry for this size and difficulty, or None when there is none; on a
        store kept sorted by time it is a fastest game. */
    function GetBestTime(size: BoardSize, difficulty: Difficulty): (r: Option<LeaderboardEntry>)
      reads this
      ensures r.None? <==> forall e | e in GetLeaderboard() :: !Matches(e, size, difficulty)
      ensures r.Some? ==> Matches(r.value, size, difficulty) && exists k | 0 <= k < |GetLeaderboard()| ::
        GetLeaderboard()[k] == r.value && forall j | 0 <= j < k :: !Matches(GetLeaderboard()[j], size, difficulty)
      ensures r.Some? && SortedByTime(GetLeaderboard()) ==>
        forall e | e in GetLeaderboard() && Matches(e, size, difficulty) :: r.value.time <= e.time
    {
      var entries := Matching(GetLeaderboard(), size, difficulty);
      if |entries| > 0 then
        assert entries[0] in entries;
        FirstIsFastest(GetLeaderboard(), size, difficulty);
        Some(entries[0])
      else None
    }
  }

  /** In a sorted list, the first entry matching a filter has the least time among the matches. */
  lemma FirstIsFastest(s: seq<LeaderboardEntry>, size: BoardSize, difficulty: Difficulty)
    requires Matching(s, size, difficulty) != []
    ensures SortedByTime(s) ==> forall e | e in s && Matches(e, size, difficulty) :: Matching(s, size, difficulty)[0].time <= e.time
  {
    var m := Matching(s, size, difficulty);
    var k :| 0 <= k < |s| && s[k] == m[0] && forall j | 0 <= j < k :: !Matches(s[j], size, difficulty);
    if SortedByTime(s) {
      forall e | e in s && Matches(e, size, difficulty) ensures m[0].time <= e.time {
        var i :| 0 <= i < |s| && s[i] == e;
        assert i >= k;
      }
    }
  }
}
