/**
 * The leaderboard view model: pass-through queries, and the current user's
 * rank, which is one more than the position of the first entry carrying the
 * user's id, or -1 when no entry does.
 */
module LeaderboardViewModels {
  import opened Wrappers
  import opened Constants
  import opened Leaderboard
  import opened LeaderboardServices

  /** The first entry with the given user id, if any. */
  function FirstOrDefault(entries: seq<LeaderboardEntry>, userId: int): (r: Option<LeaderboardEntry>)
    ensures r.None? <==> forall i :: 0 <= i < |entries| ==> entries[i].userId != userId
    ensures r.Some? ==>
      exists i :: 0 <= i < |entries| && entries[i] == r.value && entries[i].userId == userId &&
        forall j :: 0 <= j < i ==> entries[j].userId != userId
  {
    if entries == [] then None
    else if entries[0].userId == userId then Some(entries[0])
    else
      var r := FirstOrDefault(entries[1..], userId);
      if r.Some? then
        var i :| 0 <= i < |entries[1..]| && entries[1..][i] == r.value && entries[1..][i].userId == userId &&
                 forall j :: 0 <= j < i ==> entries[1..][j].userId != userId;
        assert entries[i + 1] == r.value;
        r
      else
        r
  }

  /** The position of the first occurrence of `e`, or -1. */
  function IndexOf(entries: seq<LeaderboardEntry>, e: LeaderboardEntry): (i: int)
    ensures -1 <= i < |entries|
    ensures i == -1 <==> e !in entries
    ensures i >= 0 ==> entries[i] == e && forall j :: 0 <= j < i ==> entries[j] != e
  {
    if entries == [] then -1
    else if entries[0] == e then 0
    else
      var k := IndexOf(entries[1..], e);
      if k == -1 then -1 else k + 1
  }

  /** The rank lookup: the found entry's position plus the index adjustment, or the "no rank" value. */
  function CurrentUserRank(entries: seq<LeaderboardEntry>, userId: int): (rank: int)
    ensures rank == NoRankValue || 1 <= rank <= |entries|
    ensures rank == NoRankValue <==> forall i :: 0 <= i < |entries| ==> entries[i].userId != userId
    ensures rank != NoRankValue ==>
              entries[rank - 1].userId == userId &&
              forall j :: 0 <= j < rank - 1 ==> entries[j].userId != userId
  {
    match FirstOrDefault(entries, userId)
    case None => NoRankValue
    case Some(e) =>
      var i :| 0 <= i < |entries| && entries[i] == e && entries[i].userId == userId &&
               forall j :: 0 <= j < i ==> entries[j].userId != userId;
      var k := IndexOf(entries, e);
      assert k == i by {
        assert k <= i;
        assert entries[k].userId == userId;
      }
      k + RankIndexAdjustment
  }

  /** On a board the repositories built, the looked-up rank is the rank stored in that entry. */
  lemma RankIsStoredRank(rows: seq<LeaderboardRow>, assetsPrefix: string, userId: int)
    requires CurrentUserRank(Ranked(rows, assetsPrefix), userId) != NoRankValue
    ensures CurrentUserRank(Ranked(rows, assetsPrefix), userId)
            == Ranked(rows, assetsPrefix)[CurrentUserRank(Ranked(rows, assetsPrefix), userId) - 1].rank
  {
    var rank := CurrentUserRank(Ranked(rows, assetsPrefix), userId);
    RankedAt(rows, assetsPrefix, rank - 1);
  }

  /** On a board the repositories built, the rank is -1 exactly when no row carries the user's id. */
  lemma RankAbsentIffNoRow(rows: seq<LeaderboardRow>, assetsPrefix: string, userId: int)
    ensures CurrentUserRank(Ranked(rows, assetsPrefix), userId) == NoRankValue <==>
              forall i :: 0 <= i < |rows| ==> rows[i].userId != userId
  {
    var entries := Ranked(rows, assetsPrefix);
    forall i | 0 <= i < |rows|
      ensures entries[i].userId == rows[i].userId
    {
      RankedAt(rows, assetsPrefix, i);
    }
  }

  class LeaderboardViewModel {
    const service: LeaderboardService

    constructor (service: LeaderboardService)
      ensures this.service == service
    {
      this.service := service;
    }

    /** `new LeaderboardViewModel(service)`: a null service throws. */
    static method Create(service: LeaderboardService?) returns (r: Result<LeaderboardViewModel, Error>)
      ensures service == null <==> r.Failure?
      ensures r.Failure? ==> r.error == ArgumentNull("leaderboardService")
      ensures r.Success? ==> fresh(r.value) && r.value.service == service
    {
      if service == null {
        return Failure(ArgumentNull("leaderboardService"));
      }
      var vm := new LeaderboardViewModel(service);
      return Success(vm);
    }

    /** The service's global leaderboard, exceptions included. */
    method GetGlobalLeaderboard(criteria: string) returns (r: Result<seq<LeaderboardEntry>, Error>)
      ensures r == service.GlobalBoard(criteria)
    {
      r := service.GetGlobalLeaderboard(criteria);
    }

    /** The service's friends leaderboard, exceptions included. */
    method GetFriendsLeaderboard(userId: int, criteria: string) returns (r: Result<seq<LeaderboardEntry>, Error>)
      ensures r == service.FriendsBoard(userId, criteria)
    {
      r := service.GetFriendsLeaderboard(userId, criteria);
    }

    /** The user's global rank; an invalid criteria propagates the service's error. */
    method GetCurrentUserGlobalRank(userId: int, criteria: string) returns (r: Result<int, Error>)
      ensures r.Failure? <==> service.GlobalBoard(criteria).Failure?
      ensures r.Failure? ==> r.error == General("Invalid criteria")
      ensures r.Success? ==> r.value == CurrentUserRank(service.GlobalBoard(criteria).value, userId)
    {
      var users :- service.GetGlobalLeaderboard(criteria);
      return Success(CurrentUserRank(users, userId));
    }

    /** The user's rank among the user's friends; an invalid criteria propagates the service's error. */
    method GetCurrentUserFriendsRank(userId: int, criteria: string) returns (r: Result<int, Error>)
      ensures r.Failure? <==> service.FriendsBoard(userId, criteria).Failure?
      ensures r.Failure? ==> r.error == General("Invalid criteria")
      ensures r.Success? ==> r.value == CurrentUserRank(service.FriendsBoard(userId, criteria).value, userId)
    {
      var users :- service.GetFriendsLeaderboard(userId, criteria);
      return Success(CurrentUserRank(users, userId));
    }
  }
}
