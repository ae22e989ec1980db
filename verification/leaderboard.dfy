/** The static leaderboard and its queries (src/data/leaderboard.ts). */
module Leaderboard {
  import opened Wrappers
  import opened GameTypes
  import Seqs

  const Alex: LeaderboardEntry := LeaderboardEntry(
    "player1", "Alex Chen", "/placeholder.svg", 1, 152, 180, 844,
    Some(Mathematics), Global, None, None, None, "United States")
  const Emma: LeaderboardEntry := LeaderboardEntry(
    "player2", "Emma Watson", "/placeholder.svg", 2, 143, 175, 817,
    Some(Mathematics), Global, None, None, None, "United Kingdom")
  const Hiroshi: LeaderboardEntry := LeaderboardEntry(
    "player3", "Hiroshi Tanaka", "/placeholder.svg", 3, 138, 170, 812,
    Some(Mathematics), Global, None, None, None, "Japan")
  const Maria: LeaderboardEntry := LeaderboardEntry(
    "player4", "Maria Rodriguez", "/placeholder.svg", 1, 145, 160, 906,
    Some(Physics), Global, None, None, None, "Spain")
  const Raj: LeaderboardEntry := LeaderboardEntry(
    "player5", "Raj Patel", "/placeholder.svg", 2, 138, 157, 879,
    Some(Physics), Global, None, None, None, "India")
  const Sarah: LeaderboardEntry := LeaderboardEntry(
    "player6", "Sarah Johnson", "/placeholder.svg", 1, 98, 120, 817,
    None, Country, None, None, None, "United States")
  const Michael: LeaderboardEntry := LeaderboardEntry(
    "player7", "Michael Brown", "/placeholder.svg", 2, 95, 118, 805,
    None, Country, None, None, None, "United States")
  const Jessica: LeaderboardEntry := LeaderboardEntry(
    "player8", "Jessica Lee", "/placeholder.svg", 1, 87, 100, 870,
    None, State, None, None, Some("California"), "United States")
  const David: LeaderboardEntry := LeaderboardEntry(
    "player9", "David Wilson", "/placeholder.svg", 1, 45, 50, 900,
    None, District, None, Some("San Francisco"), Some("California"), "United States")
  const Kevin: LeaderboardEntry := LeaderboardEntry(
    "player10", "Kevin Zhang", "/placeholder.svg", 1, 42, 45, 933,
    None, School, Some("Lincoln High School"), Some("San Francisco"), Some("California"), "United States")

  /** `leaderboardData`, in declaration order. */
  const Data: seq<LeaderboardEntry> :=
    [Alex, Emma, Hiroshi, Maria, Raj, Sarah, Michael, Jessica, David, Kevin]

  /** The limit `getTopPlayers` uses when called without one. */
  const DefaultLimit := 10

  function InCategoryNamed(name: string): LeaderboardEntry -> bool
  {
    (e: LeaderboardEntry) => CategoryName(e.category) == name
  }

  function OnSubject(subject: Subject): LeaderboardEntry -> bool
  {
    (e: LeaderboardEntry) => e.subject == Some(subject)
  }

  // The queries below take the table as `entries`; the app always passes `Data`.

  /** `getLeaderboardByCategory`. The TypeScript function takes any string; a string that names
      no category selects nothing. */
  function ByCategory(entries: seq<LeaderboardEntry>, name: string): (r: seq<LeaderboardEntry>)
    ensures forall i :: 0 <= i < |r| ==> CategoryName(r[i].category) == name
    ensures forall e :: e in r <==> e in entries && CategoryName(e.category) == name
    ensures forall e :: multiset(r)[e] == (if CategoryName(e.category) == name then multiset(entries)[e] else 0)
    ensures Seqs.IsSubsequence(r, entries)
  {
    Seqs.FilterCounts(InCategoryNamed(name), entries);
    Seqs.Filter(InCategoryNamed(name), entries)
  }

  /** `getLeaderboardBySubject`: entries without a subject never match. */
  function BySubject(entries: seq<LeaderboardEntry>, subject: Subject): (r: seq<LeaderboardEntry>)
    ensures forall i :: 0 <= i < |r| ==> r[i].subject == Some(subject)
    ensures forall e :: e in r <==> e in entries && e.subject == Some(subject)
    ensures forall e :: multiset(r)[e] == (if e.subject == Some(subject) then multiset(entries)[e] else 0)
    ensures Seqs.IsSubsequence(r, entries)
  {
    Seqs.FilterCounts(OnSubject(subject), entries);
    Seqs.Filter(OnSubject(subject), entries)
  }

  /** Asking for a name that is not one of the five categories yields no entries. */
  lemma ByUnknownCategoryIsEmpty(entries: seq<LeaderboardEntry>, name: string)
    requires forall c: RankCategory :: CategoryName(c) != name
    ensures ByCategory(entries, name) == []
  {
    Seqs.FilterDropsAll(InCategoryNamed(name), entries);
  }

  // ---------------------------------------------------------------------------
  // Sorting by win rate, as `[...leaderboardData].sort((a, b) => b.winRate - a.winRate)`.
  // The comparator orders by descending win rate and `Array.prototype.sort` is
  // stable, so entries of equal win rate keep their original relative order.
  // ---------------------------------------------------------------------------

  predicate NonIncreasing(s: seq<LeaderboardEntry>)
  {
    forall i, j :: 0 <= i < j < |s| ==> s[i].winRate >= s[j].winRate
  }

  /** Places `x` in front of the first entry whose win rate does not exceed its own. */
  function Insert(x: LeaderboardEntry, t: seq<LeaderboardEntry>): (r: seq<LeaderboardEntry>)
    ensures |r| == |t| + 1
    ensures multiset(r) == multiset(t) + multiset{x}
    ensures forall e :: e in r <==> e == x || e in t
    decreases |t|
  {
    if |t| == 0 || t[0].winRate <= x.winRate then [x] + t
    else
      assert t == [t[0]] + t[1..];
      [t[0]] + Insert(x, t[1..])
  }

  lemma ConsKeepsOrder(a: LeaderboardEntry, rest: seq<LeaderboardEntry>)
    requires NonIncreasing(rest)
    requires forall e :: e in rest ==> e.winRate <= a.winRate
    ensures NonIncreasing([a] + rest)
  {
    var r := [a] + rest;
    forall i, j | 0 <= i < j < |r| ensures r[i].winRate >= r[j].winRate {
      assert r[j] == rest[j - 1];
      if i > 0 {
        assert r[i] == rest[i - 1];
      }
    }
  }

  lemma {:induction false} InsertKeepsOrder(x: LeaderboardEntry, t: seq<LeaderboardEntry>)
    requires NonIncreasing(t)
    ensures NonIncreasing(Insert(x, t))
    decreases |t|
  {
    if |t| == 0 || t[0].winRate <= x.winRate {
      ConsKeepsOrder(x, t);
    } else {
      InsertKeepsOrder(x, t[1..]);
      assert forall e :: e in t[1..] ==> e.winRate <= t[0].winRate;
      ConsKeepsOrder(t[0], Insert(x, t[1..]));
    }
  }

  /** A stable sort by descending win rate. */
  function SortByWinRate(s: seq<LeaderboardEntry>): (r: seq<LeaderboardEntry>)
    ensures |r| == |s|
    ensures multiset(r) == multiset(s)
    ensures NonIncreasing(r)
    decreases |s|
  {
    if |s| == 0 then []
    else
      assert s == [s[0]] + s[1..];
      var rest := SortByWinRate(s[1..]);
      InsertKeepsOrder(s[0], rest);
      Insert(s[0], rest)
  }

  function HasWinRate(v: int): LeaderboardEntry -> bool
  {
    (e: LeaderboardEntry) => e.winRate == v
  }

  /** `[x]` when `x` has win rate `v`, otherwise nothing. */
  function IfWinRate(x: LeaderboardEntry, v: int): seq<LeaderboardEntry>
  {
    if x.winRate == v then [x] else []
  }

  lemma FilterSingleton(x: LeaderboardEntry, v: int)
    ensures Seqs.Filter(HasWinRate(v), [x]) == IfWinRate(x, v)
  {
    assert [x][1..] == [];
  }

  lemma TiesBehind(a: LeaderboardEntry, x: LeaderboardEntry, t: seq<LeaderboardEntry>,
                   rest: seq<LeaderboardEntry>, v: int)
    requires a.winRate > x.winRate
    requires Seqs.Filter(HasWinRate(v), rest) == IfWinRate(x, v) + Seqs.Filter(HasWinRate(v), t)
    ensures Seqs.Filter(HasWinRate(v), [a] + rest)
         == IfWinRate(x, v) + Seqs.Filter(HasWinRate(v), [a] + t)
  {
    var p := HasWinRate(v);
    FilterSingleton(a, v);
    Seqs.FilterAppend(p, [a], rest);
    Seqs.FilterAppend(p, [a], t);
    var fa, fx, ft := IfWinRate(a, v), IfWinRate(x, v), Seqs.Filter(p, t);
    assert fa == [] || fx == [];
    assert fa + (fx + ft) == fx + (fa + ft);
  }

  /** Inserting `x` puts it in front of every entry that ties with it. */
  lemma {:induction false} InsertKeepsTies(x: LeaderboardEntry, t: seq<LeaderboardEntry>, v: int)
    ensures Seqs.Filter(HasWinRate(v), Insert(x, t))
         == IfWinRate(x, v) + Seqs.Filter(HasWinRate(v), t)
    decreases |t|
  {
    if |t| == 0 || t[0].winRate <= x.winRate {
      FilterSingleton(x, v);
      Seqs.FilterAppend(HasWinRate(v), [x], t);
    } else {
      InsertKeepsTies(x, t[1..], v);
      TiesBehind(t[0], x, t[1..], Insert(x, t[1..]), v);
      assert [t[0]] + t[1..] == t;
    }
  }

  /** Stability: for every win rate, the entries carrying it appear in the sorted
      sequence in exactly the order they had before sorting. */
  lemma {:induction false} SortIsStable(s: seq<LeaderboardEntry>, v: int)
    ensures Seqs.Filter(HasWinRate(v), SortByWinRate(s)) == Seqs.Filter(HasWinRate(v), s)
    decreases |s|
  {
    if |s| > 0 {
      SortIsStable(s[1..], v);
      InsertKeepsTies(s[0], SortByWinRate(s[1..]), v);
      FilterSingleton(s[0], v);
      Seqs.FilterAppend(HasWinRate(v), [s[0]], s[1..]);
      assert [s[0]] + s[1..] == s;
    }
  }

  /** The end index `Array.prototype.slice(0, limit)` stops at on a sequence of length `n`:
      a negative limit counts back from the end. */
  function SliceEnd(limit: int, n: nat): (k: nat)
    ensures k <= n
    ensures 0 <= limit ==> k == (if limit < n then limit else n)
    ensures limit < 0 ==> k == (if n + limit > 0 then n + limit else 0)
  {
    if limit < 0 then (if n + limit > 0 then n + limit else 0)
    else if limit < n then limit
    else n
  }

  /** In a sequence sorted by descending win rate, each entry of a prefix is at
      least as good as each entry left out of it. */
  lemma PrefixDominatesRest(t: seq<LeaderboardEntry>, k: nat)
    requires NonIncreasing(t)
    requires k <= |t|
    ensures multiset(t[..k]) <= multiset(t)
    ensures forall x, y :: x in t[..k] && y in multiset(t) - multiset(t[..k]) ==> y.winRate <= x.winRate
  {
    assert t == t[..k] + t[k..];
    assert multiset(t) == multiset(t[..k]) + multiset(t[k..]);
    forall x, y | x in t[..k] && y in multiset(t) - multiset(t[..k])
      ensures y.winRate <= x.winRate
    {
      assert y in t[k..];
      var i :| 0 <= i < k && t[i] == x;
      var j :| k <= j < |t| && t[j] == y;
    }
  }

  /** The best `limit` entries of `entries` by win rate. */
  function TopOf(entries: seq<LeaderboardEntry>, limit: int): (r: seq<LeaderboardEntry>)
    ensures |r| == SliceEnd(limit, |entries|)
    ensures NonIncreasing(r)
    ensures multiset(r) <= multiset(entries)
    ensures forall x, y :: x in r && y in multiset(entries) - multiset(r) ==> y.winRate <= x.winRate
    ensures |r| == |entries| ==> multiset(r) == multiset(entries)
  {
    var sorted := SortByWinRate(entries);
    var k := SliceEnd(limit, |sorted|);
    PrefixDominatesRest(sorted, k);
    assert k == |sorted| ==> sorted[..k] == sorted;
    sorted[..k]
  }

  /** `getTopPlayers(limit)`. */
  function TopPlayers(limit: int): (r: seq<LeaderboardEntry>)
    ensures 0 <= limit ==> |r| == (if limit < |Data| then limit else |Data|)
    ensures limit < 0 ==> |r| == (if |Data| + limit > 0 then |Data| + limit else 0)
    ensures |r| == |Data| ==> multiset(r) == multiset(Data)
    ensures NonIncreasing(r)
    ensures multiset(r) <= multiset(Data)
    ensures forall x, y :: x in r && y in multiset(Data) - multiset(r) ==> y.winRate <= x.winRate
  {
    TopOf(Data, limit)
  }

  /** At the cut, ties are broken by table order: for every win rate, the entries with
      that rate that make the list are the first ones of the table with that rate. */
  lemma TopKeepsEarliestTies(entries: seq<LeaderboardEntry>, limit: int, v: int)
    ensures Seqs.Filter(HasWinRate(v), TopOf(entries, limit)) <= Seqs.Filter(HasWinRate(v), entries)
  {
    var sorted := SortByWinRate(entries);
    Seqs.FilterOfPrefix(HasWinRate(v), sorted, SliceEnd(limit, |sorted|));
    SortIsStable(entries, v);
  }

  /** `getTopPlayers()` with the default limit returns every one of the ten shipped entries. */
  lemma TopPlayersDefaultIsWholeBoard()
    ensures |TopPlayers(DefaultLimit)| == |Data| == 10
    ensures multiset(TopPlayers(DefaultLimit)) == multiset(Data)
  {
  }
}
