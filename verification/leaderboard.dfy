/**
 * Leaderboard rows as the store returns them, the entries built from them,
 * and the numbering rule shared by the global and friends queries: the rows
 * arrive already ordered and entry i gets rank i + 1.
 */
module Leaderboard {

  /** One row of a top-users query, in the order the store returned it. */
  datatype LeaderboardRow = LeaderboardRow(
    userId: int,
    userName: string,
    quizzesCompleted: int,
    accuracy: real,
    profileImage: string)

  /** One numbered leaderboard entry. */
  datatype LeaderboardEntry = LeaderboardEntry(
    rank: int,
    userId: int,
    username: string,
    completedQuizzes: int,
    accuracy: real,
    profilePicture: string)

  /** Image path prefix used by the global queries, spaces included. */
  const GlobalAssetsPrefix: string := ".. / .. / Assets /"
  /** Image path prefix used by the friends queries. */
  const FriendsAssetsPrefix: string := "../../Assets/"

  /** The entry built from one row under a given rank. */
  function EntryFor(row: LeaderboardRow, rank: int, assetsPrefix: string): LeaderboardEntry {
    LeaderboardEntry(rank, row.userId, row.userName, row.quizzesCompleted, row.accuracy,
                     assetsPrefix + row.profileImage)
  }

  /** The rows numbered consecutively from `first`. */
  function RankFrom(rows: seq<LeaderboardRow>, first: int, assetsPrefix: string): (entries: seq<LeaderboardEntry>)
    ensures |entries| == |rows|
  {
    if rows == [] then []
    else [EntryFor(rows[0], first, assetsPrefix)] + RankFrom(rows[1..], first + 1, assetsPrefix)
  }

  /** The leaderboard of an ordered row set: ranks 1..N in row order. */
  function Ranked(rows: seq<LeaderboardRow>, assetsPrefix: string): (entries: seq<LeaderboardEntry>)
    ensures |entries| == |rows|
    ensures forall i :: 0 <= i < |rows| ==> entries[i] == EntryFor(rows[i], i + 1, assetsPrefix)
  {
    RankFromAll(rows, 1, assetsPrefix);
    RankFrom(rows, 1, assetsPrefix)
  }

  /** Entry i of the rows numbered from `first` is row i under rank first + i. */
  lemma {:induction false} RankFromAt(rows: seq<LeaderboardRow>, first: int, assetsPrefix: string, i: int)
    requires 0 <= i < |rows|
    ensures RankFrom(rows, first, assetsPrefix)[i] == EntryFor(rows[i], first + i, assetsPrefix)
  {
    if i > 0 {
      RankFromAt(rows[1..], first + 1, assetsPrefix, i - 1);
    }
  }

  /** Every entry of the rows numbered from `first` is its row under rank first + i. */
  lemma RankFromAll(rows: seq<LeaderboardRow>, first: int, assetsPrefix: string)
    ensures forall i :: 0 <= i < |rows| ==> RankFrom(rows, first, assetsPrefix)[i] == EntryFor(rows[i], first + i, assetsPrefix)
  {
    forall i | 0 <= i < |rows|
      ensures RankFrom(rows, first, assetsPrefix)[i] == EntryFor(rows[i], first + i, assetsPrefix)
    {
      RankFromAt(rows, first, assetsPrefix, i);
    }
  }

  /**
   * One entry per row, in row order: entry i has rank i + 1, that row's id,
   * name and counters, and the prefixed image path.
   */
  lemma RankedAt(rows: seq<LeaderboardRow>, assetsPrefix: string, i: int)
    requires 0 <= i < |rows|
    ensures |Ranked(rows, assetsPrefix)| == |rows|
    ensures Ranked(rows, assetsPrefix)[i].rank == i + 1
    ensures Ranked(rows, assetsPrefix)[i].userId == rows[i].userId
    ensures Ranked(rows, assetsPrefix)[i].username == rows[i].userName
    ensures Ranked(rows, assetsPrefix)[i].completedQuizzes == rows[i].quizzesCompleted
    ensures Ranked(rows, assetsPrefix)[i].accuracy == rows[i].accuracy
    ensures Ranked(rows, assetsPrefix)[i].profilePicture == assetsPrefix + rows[i].profileImage
  {
    RankFromAt(rows, 1, assetsPrefix, i);
  }

  /** The ranks are exactly 1..N: every rank lies in [1, N] and no two entries share one. */
  lemma RanksAreOneToN(rows: seq<LeaderboardRow>, assetsPrefix: string)
    ensures forall i :: 0 <= i < |rows| ==> 1 <= Ranked(rows, assetsPrefix)[i].rank <= |rows|
    ensures forall i, j :: 0 <= i < j < |rows| ==>
              Ranked(rows, assetsPrefix)[i].rank != Ranked(rows, assetsPrefix)[j].rank
  {
    forall i | 0 <= i < |rows|
      ensures Ranked(rows, assetsPrefix)[i].rank == i + 1
    {
      RankedAt(rows, assetsPrefix, i);
    }
  }

  /** An empty row set gives an empty leaderboard. */
  lemma RankedEmpty(assetsPrefix: string)
    ensures Ranked([], assetsPrefix) == []
  {
  }

  /**
   * The repositories' numbering loop: walk the rows in order, appending an
   * entry for each under a counter that starts at 1 and is post-incremented.
   */
  method BuildEntries(rows: seq<LeaderboardRow>, assetsPrefix: string) returns (entries: seq<LeaderboardEntry>)
    ensures |entries| == |rows|
    ensures forall k :: 0 <= k < |rows| ==> entries[k] == EntryFor(rows[k], k + 1, assetsPrefix)
    ensures entries == Ranked(rows, assetsPrefix)
  {
    entries := [];
    var rank := 1;
    var i := 0;
    while i < |rows|
      invariant 0 <= i <= |rows| && rank == i + 1
      invariant |entries| == i
      invariant forall k :: 0 <= k < i ==> entries[k] == EntryFor(rows[k], k + 1, assetsPrefix)
    {
      entries := entries + [EntryFor(rows[i], rank, assetsPrefix)];
      rank := rank + 1;
      i := i + 1;
    }
    forall k | 0 <= k < |rows|
      ensures entries[k] == Ranked(rows, assetsPrefix)[k]
    {
      RankFromAt(rows, 1, assetsPrefix, k);
    }
  }
}
