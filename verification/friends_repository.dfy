/**
 * The friends repository: the add-friend write and the two friends
 * leaderboards, numbered 1..N in the order the store returns the rows.
 */
module FriendsRepositories {
  import opened Wrappers
  import opened Leaderboard
  import opened Persistence

  class FriendsRepository {
    const link: DataStore

    constructor (link: DataStore)
      ensures this.link == link
    {
      this.link := link;
    }

    /** `new FriendsRepository(dataLink)`: a null data link throws. */
    static method Create(link: DataStore?) returns (r: Result<FriendsRepository, Error>)
      ensures link == null <==> r.Failure?
      ensures r.Failure? ==> r.error == ArgumentNull("dataLink")
      ensures r.Success? ==> fresh(r.value) && r.value.link == link
    {
      if link == null {
        return Failure(ArgumentNull("dataLink"));
      }
      var repo := new FriendsRepository(link);
      return Success(repo);
    }

    /** Calls the add-friend procedure once. */
    method AddFriend(userId: int, friendId: int)
      modifies link`log
      ensures link.log == old(link.log) + [AddFriendWrite(userId, friendId)]
    {
      link.AddFriend(userId, friendId);
    }

    /** The user's friends by completed quizzes: the procedure's rows numbered 1..N. */
    method GetTopFriendsByCompletedQuizzes(userId: int) returns (entries: seq<LeaderboardEntry>)
      ensures entries == Ranked(FriendsRows(link.topFriendsByQuizzes, userId), FriendsAssetsPrefix)
    {
      entries := BuildEntries(FriendsRows(link.topFriendsByQuizzes, userId), FriendsAssetsPrefix);
    }

    /** The user's friends by accuracy: the procedure's rows numbered 1..N. */
    method GetTopFriendsByAccuracy(userId: int) returns (entries: seq<LeaderboardEntry>)
      ensures entries == Ranked(FriendsRows(link.topFriendsByAccuracy, userId), FriendsAssetsPrefix)
    {
      entries := BuildEntries(FriendsRows(link.topFriendsByAccuracy, userId), FriendsAssetsPrefix);
    }
  }
}
