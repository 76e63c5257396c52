/**
 * The leaderboard service: an exact, case-sensitive dispatch on the criteria
 * string to one of the two leaderboards, and anything else is an error.
 */
module LeaderboardServices {
  import opened Wrappers
  import opened Constants
  import opened Leaderboard
  import opened Persistence
  import opened UserRepositories
  import opened FriendsRepositories

  /** The criteria dispatch: the quizzes board, the accuracy board, or "Invalid criteria". */
  function Dispatch<T>(criteria: string, byQuizzes: T, byAccuracy: T): (r: Result<T, Error>)
    ensures r.Success? <==> criteria == CompletedQuizzesCriteria || criteria == AccuracyCriteria
    ensures criteria == CompletedQuizzesCriteria ==> r == Success(byQuizzes)
    ensures criteria == AccuracyCriteria ==> r == Success(byAccuracy)
    ensures r.Failure? ==> r.error == General("Invalid criteria")
  {
    if criteria == CompletedQuizzesCriteria then Success(byQuizzes)
    else if criteria == AccuracyCriteria then Success(byAccuracy)
    else Failure(General("Invalid criteria"))
  }

  /**
   * An illustration of the ordinal comparison, already implied by `Dispatch`'s
   * contract: other spellings of the two criteria are rejected.
   */
  lemma DispatchIsCaseSensitive<T>(byQuizzes: T, byAccuracy: T)
    ensures Dispatch("completedquizzes", byQuizzes, byAccuracy).Failure?
    ensures Dispatch("accuracy", byQuizzes, byAccuracy).Failure?
    ensures Dispatch("", byQuizzes, byAccuracy).Failure?
  {
    assert "completedquizzes"[0] != CompletedQuizzesCriteria[0];
    assert "accuracy"[0] != AccuracyCriteria[0];
  }

  class LeaderboardService {
    const userRepository: UserRepository
    const friendsRepository: FriendsRepository

    constructor (userRepository: UserRepository, friendsRepository: FriendsRepository)
      ensures this.userRepository == userRepository && this.friendsRepository == friendsRepository
    {
      this.userRepository := userRepository;
      this.friendsRepository := friendsRepository;
    }

    /** `new LeaderboardService(...)`: the user repository is checked first, then the friends repository. */
    static method Create(userRepository: UserRepository?, friendsRepository: FriendsRepository?)
      returns (r: Result<LeaderboardService, Error>)
      ensures r.Failure? <==> userRepository == null || friendsRepository == null
      ensures userRepository == null ==> r == Failure(ArgumentNull("userRepository"))
      ensures userRepository != null && friendsRepository == null ==> r == Failure(ArgumentNull("friendsRepository"))
      ensures r.Success? ==> fresh(r.value) && r.value.userRepository == userRepository
                             && r.value.friendsRepository == friendsRepository
    {
      if userRepository == null {
        return Failure(ArgumentNull("userRepository"));
      }
      if friendsRepository == null {
        return Failure(ArgumentNull("friendsRepository"));
      }
      var service := new LeaderboardService(userRepository, friendsRepository);
      return Success(service);
    }

    /** The global leaderboard the service returns for `criteria`. */
    function GlobalBoard(criteria: string): Result<seq<LeaderboardEntry>, Error>
      reads userRepository.link
    {
      Dispatch(criteria, Ranked(userRepository.link.topUsersByQuizzes, GlobalAssetsPrefix),
               Ranked(userRepository.link.topUsersByAccuracy, GlobalAssetsPrefix))
    }

    /** The friends leaderboard of `userId` the service returns for `criteria`. */
    function FriendsBoard(userId: int, criteria: string): Result<seq<LeaderboardEntry>, Error>
      reads friendsRepository.link
    {
      Dispatch(criteria, Ranked(FriendsRows(friendsRepository.link.topFriendsByQuizzes, userId), FriendsAssetsPrefix),
               Ranked(FriendsRows(friendsRepository.link.topFriendsByAccuracy, userId), FriendsAssetsPrefix))
    }

    /** Only the repository query the criteria names is called. */
    method GetGlobalLeaderboard(criteria: string) returns (r: Result<seq<LeaderboardEntry>, Error>)
      ensures r == GlobalBoard(criteria)
    {
      if criteria == CompletedQuizzesCriteria {
        var entries := userRepository.GetTopUsersByCompletedQuizzes();
        return Success(entries);
      } else if criteria == AccuracyCriteria {
        var entries := userRepository.GetTopUsersByAccuracy();
        return Success(entries);
      } else {
        return Failure(General("Invalid criteria"));
      }
    }

    /** The same dispatch over the friends queries, passing `userId` through. */
    method GetFriendsLeaderboard(userId: int, criteria: string) returns (r: Result<seq<LeaderboardEntry>, Error>)
      ensures r == FriendsBoard(userId, criteria)
    {
      if criteria == CompletedQuizzesCriteria {
        var entries := friendsRepository.GetTopFriendsByCompletedQuizzes(userId);
        return Success(entries);
      } else if criteria == AccuracyCriteria {
        var entries := friendsRepository.GetTopFriendsByAccuracy(userId);
        return Success(entries);
      } else {
        return Failure(General("Invalid criteria"));
      }
    }

    /** Not implemented in the application: changes nothing. */
    method UpdateUserScore(userId: int, points: int)
      ensures unchanged(userRepository.link, friendsRepository.link)
    {
    }

    /** Not implemented in the application: changes nothing. */
    method CalculateRankChange(userId: int, timeFrame: string)
      ensures unchanged(userRepository.link, friendsRepository.link)
    {
    }
  }
}
